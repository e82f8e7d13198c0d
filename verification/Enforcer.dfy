/** internal/budget/enforcer.go as it is written: an object whose fields and per-tenant
    records are updated in place. Every method is proved equal to its function in BudgetModel. */
module Enforcer {
  import opened Common
  import M = BudgetModel

  /** One tenant's live counters. */
  class TenantState {
    var dailySpent: real
    var dailyStart: int
    var monthlySpent: real
    var monthlyStart: int
    var committed: real
    var requests: int
    var requestsAt: int
    var tokens: int
    var tokensAt: int

    constructor Opened(now: int)
      ensures View() == M.Opened(now)
    {
      dailySpent, monthlySpent, committed := 0.0, 0.0, 0.0;
      requests, tokens := 0, 0;
      dailyStart, monthlyStart, requestsAt, tokensAt := now, now, now, now;
    }

    /** From a stored row: committed and the rate windows start over. */
    constructor Restored(row: M.SpendRow, now: int)
      ensures View() == M.Restored(row, now)
    {
      dailySpent, dailyStart, monthlySpent, monthlyStart := row.dailyUSD, row.dailyStart, row.monthlyUSD, row.monthlyStart;
      committed, requests, tokens := 0.0, 0, 0;
      requestsAt, tokensAt := now, now;
    }

    function View(): M.Counters
      reads this
    {
      M.Counters(dailySpent, dailyStart, monthlySpent, monthlyStart, committed, requests, requestsAt, tokens, tokensAt)
    }

    /** Each window turns over on its own. */
    method RollTo(now: int)
      modifies this
      ensures View() == M.Roll(old(View()), now)
    {
      if now - dailyStart >= M.DAILY_WINDOW {
        dailySpent := 0.0;
        dailyStart := now;
      }
      if now - monthlyStart >= M.MONTHLY_WINDOW {
        monthlySpent := 0.0;
        monthlyStart := now;
      }
      if now - requestsAt >= M.RATE_WINDOW {
        requests := 0;
        requestsAt := now;
      }
      if now - tokensAt >= M.RATE_WINDOW {
        tokens := 0;
        tokensAt := now;
      }
    }

    method Claim(est: M.Estimate)
      modifies this
      ensures View() == M.Claim(old(View()), est)
    {
      committed := committed + est.usd;
      requests := requests + 1;
      tokens := tokens + est.promptTokens + est.completionTokens;
    }

    /** The real cost takes the claim's place, and the token window is reconciled with what was
        really used. */
    method Charge(est: M.Estimate, totalTokens: int, usd: real)
      modifies this
      ensures View() == M.Reconcile(M.Charge(M.GiveBack(old(View()), est), usd), totalTokens - est.Tokens())
    {
      GiveBack(est);
      dailySpent := dailySpent + usd;
      monthlySpent := monthlySpent + usd;
      var delta := totalTokens - (est.promptTokens + est.completionTokens);
      if delta != 0 {
        tokens := tokens + delta;
        if tokens < 0 {
          tokens := 0;
        }
      }
    }

    method GiveBack(est: M.Estimate)
      modifies this
      ensures View() == M.GiveBack(old(View()), est)
    {
      committed := committed - est.usd;
      if committed < 0.0 {
        committed := 0.0;
      }
    }
  }

  /** The rows of the budget store; a write replaces one row or has no effect. */
  class Store {
    var rows: map<M.TenantID, M.SpendRow>

    constructor (rows: map<M.TenantID, M.SpendRow>)
      ensures this.rows == rows
    {
      this.rows := rows;
    }

    method Save(row: M.SpendRow, saves: bool) returns (ok: bool)
      modifies this
      ensures ok == saves
      ensures rows == if saves then old(rows)[row.tenant := row] else old(rows)
    {
      if saves {
        rows := rows[row.tenant := row];
      }
      ok := saves;
    }
  }

  class MemEnforcer {
    const limits: map<M.TenantID, M.Limits>
    const store: Store?
    var state: map<M.TenantID, TenantState>
    var healthy: bool
    var nextID: nat
    var done: set<nat>
    var seqNo: map<M.TenantID, nat>
    var written: map<M.TenantID, nat>

    ghost predicate Valid()
      reads `state
    {
      forall t, u :: t in state && u in state && t != u ==> state[t] != state[u]
    }

    ghost function Records(): set<TenantState>
      reads `state
    {
      state.Values
    }

    ghost function Counters(): map<M.TenantID, M.Counters>
      reads `state, Records()
    {
      map t | t in state :: state[t].View()
    }

    /** What this object stands for. */
    ghost function Model(): M.Book
      reads this, Records(), store
    {
      M.Book(limits, Counters(), healthy, nextID, done, store != null, seqNo, written,
             if store != null then store.rows else map[])
    }

    /** Changing one tenant's record changes one tenant's counters and nothing else. */
    twostate lemma OneChanged(t: M.TenantID)
      requires old(Valid()) && t in state && unchanged(this)
      requires store != null ==> unchanged(store)
      requires forall u :: u in state && u != t ==> state[u].View() == old(state[u].View())
      ensures Model() == M.Update(old(Model()), t, state[t].View())
    {
      assert Counters() == old(Counters())[t := state[t].View()];
    }

    constructor (limits: map<M.TenantID, M.Limits>, store: Store?, now: int)
      ensures Valid() && fresh(Records()) && this.store == store
      ensures Model() == M.Boot(limits, store != null, if store != null then store.rows else map[], now)
    {
      this.limits := limits;
      this.store := store;
      state := map[];
      healthy, nextID, done := true, 0, {};
      seqNo, written := map[], map[];
      new;
      if store != null {
        RestoreAll(store.rows, now);
      }
    }

    /** Every stored row of a tenant still configured comes back. */
    method RestoreAll(rows: map<M.TenantID, M.SpendRow>, now: int)
      requires state == map[]
      modifies `state
      ensures Valid() && fresh(Records())
      ensures Counters() == map t | t in rows && t in limits :: M.Restored(rows[t], now)
    {
      var todo := rows.Keys;
      while todo != {}
        invariant Valid() && todo !! state.Keys && todo <= rows.Keys
        invariant forall t :: t in state ==> fresh(state[t])
        invariant Counters() == map t | t in rows && t in limits && t !in todo :: M.Restored(rows[t], now)
        decreases todo
      {
        var t :| t in todo;
        todo := todo - {t};
        if t in limits {
          Restore(t, rows[t], now);
        }
      }
    }

    method Restore(t: M.TenantID, row: M.SpendRow, now: int)
      requires Valid() && t !in state
      modifies this`state
      ensures Valid() && t in state && fresh(state[t]) && state == old(state)[t := state[t]]
      ensures Counters() == old(Counters())[t := M.Restored(row, now)]
    {
      var st := new TenantState.Restored(row, now);
      state := state[t := st];
    }

    /** The tenant's counters with every expired window already cleared. */
    method StateFor(t: M.TenantID, now: int) returns (st: TenantState)
      requires Valid()
      modifies this`state, Records()
      ensures Valid() && fresh(Records() - old(Records()))
      ensures t in state && st == state[t]
      ensures st.View() == M.CountersFor(old(Model()), t, now)
      ensures Model() == M.StateFor(old(Model()), t, now)
    {
      if t !in state {
        st := new TenantState.Opened(now);
        state := state[t := st];
        assert Counters() == old(Counters())[t := st.View()];
      } else {
        st := state[t];
        st.RollTo(now);
        OneChanged(t);
      }
    }

    /** Spent, in the tenant's windows as of now. */
    method Spent(t: M.TenantID, now: int) returns (daily: real, monthly: real)
      requires Valid()
      modifies this, Records()
      ensures Valid() && fresh(Records() - old(Records()))
      ensures Model() == M.StateFor(old(Model()), t, now)
      ensures daily == M.CountersFor(old(Model()), t, now).dailySpent
      ensures monthly == M.CountersFor(old(Model()), t, now).monthlySpent
    {
      var st := StateFor(t, now);
      daily, monthly := st.dailySpent, st.monthlySpent;
    }

    /** Reserved and not yet settled. */
    method Committed(t: M.TenantID, now: int) returns (usd: real)
      requires Valid()
      modifies this, Records()
      ensures Valid() && fresh(Records() - old(Records()))
      ensures Model() == M.StateFor(old(Model()), t, now)
      ensures usd == M.CountersFor(old(Model()), t, now).committed
    {
      var st := StateFor(t, now);
      usd := st.committed;
    }

    method SetStoreHealthy(healthy: bool)
      requires Valid()
      modifies this`healthy
      ensures Valid() && Model() == old(Model()).(healthy := healthy)
    {
      this.healthy := healthy;
    }

    method TakeID() returns (id: nat)
      requires Valid()
      modifies this`nextID
      ensures Model() == old(Model()).(nextID := id) && id == old(nextID) + 1
    {
      nextID := nextID + 1;
      id := nextID;
    }

    method Reserve(t: M.TenantID, est: M.Estimate, now: int) returns (a: M.Admission)
      requires Valid()
      modifies this, Records()
      ensures Valid() && fresh(Records() - old(Records()))
      ensures Model() == M.Reserve(old(Model()), t, est, now).0 && a == M.Reserve(old(Model()), t, est, now).1
    {
      if t !in limits {
        return M.Denied(M.Denial(M.UnknownTenant, 0));
      }
      if !healthy && limits[t].failClosed {
        return M.Denied(M.Denial(M.StoreDegraded, 0));
      }
      var st := StateFor(t, now);
      var rate := M.CheckRates(st.View(), limits[t], est, now);
      if rate.Some? {
        return M.Denied(rate.value);
      }
      var budget := M.CheckBudgets(st.View(), limits[t], est);
      if budget.Some? {
        return M.Denied(budget.value);
      }
      label touched:
      st.Claim(est);
      OneChanged@touched(t);
      ghost var claimed := Model();
      assert claimed == M.Update(old@touched(Model()), t, M.Claim(old@touched(st.View()), est));
      var id := TakeID();
      a := M.Granted(M.Reservation(t, est, now, id));
    }

    method MarkDone(id: nat)
      requires Valid()
      modifies this`done
      ensures Model() == M.Close(old(Model()), id)
    {
      done := done + {id};
    }

    /** A numbered copy of the tenant's figures, if there is a store to send it to. */
    method Cut(t: M.TenantID) returns (snap: Option<M.Snapshot>)
      requires Valid() && t in state
      modifies this`seqNo
      ensures Model() == M.Cut(old(Model()), t).0 && snap == M.Cut(old(Model()), t).1
    {
      if store == null {
        return None;
      }
      var n := M.At(seqNo, t) + 1;
      seqNo := seqNo[t := n];
      var st := state[t];
      snap := Some(M.Snapshot(M.SpendRow(t, st.dailySpent, st.dailyStart, st.monthlySpent, st.monthlyStart), n));
    }

    /** The part of Settle under the accounting lock: the books move, and if there is a store
        a numbered snapshot is cut. */
    method SettleLocked(r: M.Reservation, totalTokens: int, usd: real, now: int) returns (snap: Option<M.Snapshot>)
      requires Valid()
      modifies this, Records()
      ensures Valid() && fresh(Records() - old(Records()))
      ensures Model() == M.SettleMem(old(Model()), r, totalTokens, usd, now).0
      ensures snap == M.SettleMem(old(Model()), r, totalTokens, usd, now).1
    {
      if r.id in done {
        return None;
      }
      ghost var b := Model();
      ghost var c := M.SettledCounters(M.CountersFor(b, r.tenant, now), r, totalTokens, usd);
      ChargeTo(r, totalTokens, usd, now, c);
      MarkDone(r.id);
      ghost var closed := Model();
      snap := Cut(r.tenant);
      M.SettleMemIsCut(b, r, totalTokens, usd, now, closed);
    }

    method ChargeTo(r: M.Reservation, totalTokens: int, usd: real, now: int, ghost c: M.Counters)
      requires Valid() && c == M.SettledCounters(M.CountersFor(Model(), r.tenant, now), r, totalTokens, usd)
      modifies this`state, Records()
      ensures Valid() && fresh(Records() - old(Records())) && r.tenant in state
      ensures Model() == M.Update(old(Model()), r.tenant, c)
    {
      var st := StateFor(r.tenant, now);
      label touched:
      st.Charge(r.estimate, totalTokens, usd);
      OneChanged@touched(r.tenant);
      M.UpdateTwice(old(Model()), r.tenant, M.CountersFor(old(Model()), r.tenant, now), st.View());
    }

    /** The part of Settle outside the lock: write the snapshot unless a newer one landed. */
    method Persist(snap: M.Snapshot, saves: bool) returns (ok: bool)
      requires Valid() && store != null
      modifies this`healthy, this`written, store
      ensures Valid() && Records() == old(Records())
      ensures Model() == M.Persist(old(Model()), snap, saves).0 && ok == M.Persist(old(Model()), snap, saves).1
    {
      if snap.number <= M.At(written, snap.row.tenant) {
        return true;
      }
      ok := store.Save(snap.row, saves);
      assert Counters() == old(Counters());
      if !ok {
        healthy := false;
        return;
      }
      written := written[snap.row.tenant := snap.number];
      healthy := true;
    }

    /** Settle with nothing else running between its two parts; a nil reservation is an error. */
    method Settle(r: Option<M.Reservation>, totalTokens: int, usd: real, now: int, saves: bool) returns (ok: bool)
      requires Valid()
      modifies this, Records(), store
      ensures Valid() && fresh(Records() - old(Records()))
      ensures r.None? ==> !ok && Model() == old(Model())
      ensures r.Some? ==>
                var (b, snap) := M.SettleMem(old(Model()), r.value, totalTokens, usd, now);
                && Model() == (if snap.Some? then M.Persist(b, snap.value, saves).0 else b)
                && ok == (snap.Some? ==> M.Persist(b, snap.value, saves).1)
    {
      if r.None? {
        return false;
      }
      var snap := SettleLocked(r.value, totalTokens, usd, now);
      if snap.None? {
        return true;
      }
      ok := Persist(snap.value, saves);
    }

    method Release(r: Option<M.Reservation>, now: int) returns (ok: bool)
      requires Valid()
      modifies this, Records()
      ensures Valid() && fresh(Records() - old(Records()))
      ensures ok == r.Some?
      ensures Model() == if r.Some? then M.Release(old(Model()), r.value, now) else old(Model())
    {
      if r.None? {
        return false;
      }
      if r.value.id in done {
        return true;
      }
      var st := StateFor(r.value.tenant, now);
      label touched:
      st.GiveBack(r.value.estimate);
      OneChanged@touched(r.value.tenant);
      M.UpdateTwice(old(Model()), r.value.tenant, M.CountersFor(old(Model()), r.value.tenant, now), st.View());
      MarkDone(r.value.id);
      ok := true;
    }
  }
}
