/** internal/budget/guard.go: the one object through which the request path reserves, settles,
    records and aborts. */
module Guard {
  import opened Common
  import opened StreamSpec
  import opened Pricing
  import M = BudgetModel
  import E = Enforcer

  datatype LedgerRow = LedgerRow(
    stamp: int, tenant: M.TenantID, provider: string, model: string,
    promptTokens: int, completionTokens: int, usd: real, priceVersion: int, requestID: nat)

  class Ledger {
    var rows: seq<LedgerRow>

    constructor ()
      ensures rows == []
    {
      rows := [];
    }

    method Write(row: LedgerRow, writes: bool) returns (ok: bool)
      modifies this
      ensures ok == writes && rows == old(rows) + if writes then [row] else []
    {
      if writes {
        rows := rows + [row];
      }
      ok := writes;
    }
  }

  /** How the world treats one settlement: the clock at its two ends, and whether the store and
      the ledger take their writes. */
  datatype World = World(now: int, stamp: int, saves: bool, writes: bool)

  /** Settle with its write right behind it. */
  function SettleNow(b: M.Book, r: M.Reservation, totalTokens: int, usd: real, w: World): M.Book {
    var (b', snap) := M.SettleMem(b, r, totalTokens, usd, w.now);
    if snap.Some? then M.Persist(b', snap.value, w.saves).0 else b'
  }

  /** What a guard charges by: its estimator, its prices, and whether it keeps a ledger. */
  datatype Terms = Terms(estimator: Option<(string, string) -> M.Estimate>, prices: Option<Table>,
                         kindOf: Option<string -> string>, keepsLedger: bool)
  {
    /** Zero for what is not priced. */
    function Price(provider: string, model: string, usage: Usage): real {
      if prices.None? || kindOf.None? then 0.0
      else
        var cost := Cost(prices.value, kindOf.value(provider), model, usage);
        if cost.Some? then cost.value else 0.0
    }

    function PriceVersion(): int { if prices.Some? then prices.value.version else 0 }

    function RowFor(r: M.Reservation, usage: Usage, usd: real, model: string, provider: string, stamp: int): LedgerRow {
      LedgerRow(stamp, r.tenant, provider, model, usage.prompt, usage.completion, usd, PriceVersion(), r.id)
    }
  }

  class Guard {
    const estimator: Option<(string, string) -> M.Estimate>
    const enforcer: E.MemEnforcer?
    const prices: Option<Table>
    const kindOf: Option<string -> string>
    const ledger: Ledger?

    constructor (estimator: Option<(string, string) -> M.Estimate>, enforcer: E.MemEnforcer?, prices: Option<Table>,
                 kindOf: Option<string -> string>, ledger: Ledger?)
      ensures this.estimator == estimator && this.enforcer == enforcer && this.prices == prices
      ensures this.kindOf == kindOf && this.ledger == ledger
    {
      this.estimator, this.enforcer, this.prices, this.kindOf, this.ledger := estimator, enforcer, prices, kindOf, ledger;
    }

    ghost predicate Valid()
      reads this, enforcer
    {
      enforcer != null ==> enforcer.Valid()
    }

    /** The books behind this guard; without an enforcer there are none. */
    ghost function Book(): Option<M.Book>
      reads this, enforcer, if enforcer != null then enforcer.Records() + {enforcer.store} else {}
    {
      if enforcer != null then Some(enforcer.Model()) else None
    }

    ghost function Rows(): seq<LedgerRow>
      reads this, ledger
    {
      if ledger != null then ledger.rows else []
    }

    ghost function Records(): set<E.TenantState>
      reads this, enforcer
    {
      if enforcer != null then enforcer.Records() else {}
    }

    function OnTerms(): Terms { Terms(estimator, prices, kindOf, ledger != null) }

    function Price(provider: string, model: string, usage: Usage): (usd: real)
      ensures prices.Some? && RatesOK(prices.value) ==> usd >= 0.0
    {
      PriceNeverNegative(OnTerms(), provider, model, usage);
      OnTerms().Price(provider, model, usage)
    }

    function RowFor(r: M.Reservation, usage: Usage, usd: real, model: string, provider: string, stamp: int): LedgerRow {
      OnTerms().RowFor(r, usage, usd, model, provider, stamp)
    }

    /** A nil reservation and no denial means budgeting is not configured. */
    method Begin(tenant: M.TenantID, model: string, raw: string, now: int) returns (a: Result<Option<M.Reservation>, M.Denial>)
      requires Valid()
      modifies enforcer, Records()
      ensures Valid() && fresh(Records() - old(Records()))
      ensures Book().None? || estimator.None? ==> a == Ok(None) && Book() == old(Book())
      ensures Book().Some? && estimator.Some? ==>
                var (b, admission) := M.Reserve(old(Book().value), tenant, estimator.value(model, raw), now);
                && Book() == Some(b)
                && a == (match admission case Granted(r) => Ok(Some(r)) case Denied(d) => Err(d))
    {
      if enforcer == null || estimator.None? {
        return Ok(None);
      }
      var admission := enforcer.Reserve(tenant, estimator.value(model, raw), now);
      match admission
      case Granted(r) => a := Ok(Some(r));
      case Denied(d) => a := Err(d);
    }

    /** The books take the real cost, and the ledger a row for it; failing writes are reported,
        not returned. */
    method Settle(r: Option<M.Reservation>, usage: Usage, model: string, provider: string, w: World) returns (usd: real)
      requires Valid()
      modifies enforcer, Records(), if enforcer != null then {enforcer.store} else {}, ledger
      ensures Valid() && fresh(Records() - old(Records()))
      ensures r.None? || Book().None? ==> usd == 0.0 && Book() == old(Book()) && Rows() == old(Rows())
      ensures r.Some? && Book().Some? ==>
                && usd == Price(provider, model, usage)
                && Book() == Some(SettleNow(old(Book().value), r.value, usage.total, usd, w))
                && Rows() == old(Rows()) + if ledger != null && w.writes then [RowFor(r.value, usage, usd, model, provider, w.stamp)] else []
    {
      if r.None? || enforcer == null {
        return 0.0;
      }
      usd := Price(provider, model, usage);
      ghost var b := enforcer.Model();
      var _ := enforcer.Settle(r, usage.total, usd, w.now, w.saves);
      assert enforcer.Model() == SettleNow(b, r.value, usage.total, usd, w);
      Record(r.value, usage, usd, model, provider, w.stamp, w.writes);
    }

    method Record(r: M.Reservation, usage: Usage, usd: real, model: string, provider: string, stamp: int, writes: bool)
      modifies ledger
      ensures Rows() == old(Rows()) + if ledger != null && writes then [RowFor(r, usage, usd, model, provider, stamp)] else []
    {
      if ledger == null {
        return;
      }
      var _ := ledger.Write(RowFor(r, usage, usd, model, provider, stamp), writes);
    }

    method Abort(r: Option<M.Reservation>, now: int)
      requires Valid()
      modifies enforcer, Records()
      ensures Valid() && fresh(Records() - old(Records()))
      ensures Book() == if r.Some? && old(Book()).Some? then Some(M.Release(old(Book().value), r.value, now)) else old(Book())
    {
      if r.None? || enforcer == null {
        return;
      }
      var _ := enforcer.Release(r, now);
    }
  }

  /** Under a valid table no settlement credits the tenant. */
  lemma PriceNeverNegative(terms: Terms, provider: string, model: string, usage: Usage)
    ensures terms.prices.None? || RatesOK(terms.prices.value) ==> terms.Price(provider, model, usage) >= 0.0
  {
    if terms.prices.Some? && RatesOK(terms.prices.value) && terms.kindOf.Some? {
      CostNeverCredits(terms.prices.value, terms.kindOf.value(provider), model, usage);
    }
  }

  /** A bill is the table's rate for the kind of the provider that answered and the model it answered
      with; what the table does not price costs nothing. */
  lemma PriceIsRate(terms: Terms, provider: string, model: string, usage: Usage)
    ensures var key := if terms.kindOf.Some? then terms.kindOf.value(provider) + "/" + model else "";
            terms.Price(provider, model, usage) ==
              if terms.prices.Some? && terms.kindOf.Some? && key in terms.prices.value.prices
              then CostUSD(terms.prices.value.prices[key], usage.prompt, usage.completion) else 0.0
  {
  }

  /** An estimate is priced as the bill is: for the counts it names, from the same table, for the model
      and the kind of the provider that will be billed. */
  lemma EstimateIsBill(terms: Terms, resolve: string -> (string, string), model: string, provider: string, usage: Usage)
    requires terms.prices.Some? && terms.kindOf.Some? && terms.kindOf.value(provider) == resolve(model).0 != ""
    ensures EstimateUSD(terms.prices, Some(resolve), model, usage.prompt, usage.completion)
         == terms.Price(provider, if resolve(model).1 != "" then resolve(model).1 else model, usage)
  {
  }
}
