/** internal/pricing/pricing.go: what a request is priced at. */
module Pricing {
  import opened Common
  import opened StreamSpec

  const TOKENS_PER_MTOK: real := 1_000_000.0

  datatype Price = Price(inputPerMTok: real, outputPerMTok: real, free: bool)

  datatype Table = Table(version: int, prices: map<string, Price>)

  function Key(kind: string, model: string): string { kind + "/" + model }

  function CostUSD(p: Price, promptTokens: int, completionTokens: int): real {
    if p.free then 0.0
    else (MaxInt(0, promptTokens) as real * p.inputPerMTok + MaxInt(0, completionTokens) as real * p.outputPerMTok) / TOKENS_PER_MTOK
  }

  /** None for a model the table does not price. */
  function Cost(t: Table, kind: string, model: string, u: Usage): Option<real> {
    if Key(kind, model) in t.prices then Some(CostUSD(t.prices[Key(kind, model)], u.prompt, u.completion)) else None
  }

  /** What Validate makes sure of about the rates. */
  predicate RatesOK(t: Table) {
    forall k :: k in t.prices ==> t.prices[k].inputPerMTok >= 0.0 && t.prices[k].outputPerMTok >= 0.0
  }

  lemma Distributes(a: real, b: real, x: real)
    ensures (a + b) * x == a * x + b * x
  {
  }

  /** A price is the rates: a million tokens of either kind cost its rate, costs of counts add up, a
      negative count is none, and free is free. */
  lemma CostIsRates(p: Price, a: int, b: int, c: int, d: int)
    ensures p.free ==> CostUSD(p, a, b) == 0.0
    ensures !p.free ==> CostUSD(p, 1_000_000, 0) == p.inputPerMTok && CostUSD(p, 0, 1_000_000) == p.outputPerMTok
    ensures a >= 0 && b >= 0 && c >= 0 && d >= 0 ==> CostUSD(p, a + c, b + d) == CostUSD(p, a, b) + CostUSD(p, c, d)
    ensures a <= 0 ==> CostUSD(p, a, b) == CostUSD(p, 0, b)
    ensures b <= 0 ==> CostUSD(p, a, b) == CostUSD(p, a, 0)
  {
    if !p.free && a >= 0 && b >= 0 && c >= 0 && d >= 0 {
      CostsAdd(p, a, b, c, d);
    }
  }

  lemma CostsAdd(p: Price, a: nat, b: nat, c: nat, d: nat)
    requires !p.free
    ensures CostUSD(p, a + c, b + d) == CostUSD(p, a, b) + CostUSD(p, c, d)
  {
    var i, o := p.inputPerMTok, p.outputPerMTok;
    Distributes(a as real, c as real, i);
    Distributes(b as real, d as real, o);
    assert (a + c) as real == a as real + c as real && (b + d) as real == b as real + d as real;
    var x, y := a as real * i + b as real * o, c as real * i + d as real * o;
    assert CostUSD(p, a, b) == x / TOKENS_PER_MTOK && CostUSD(p, c, d) == y / TOKENS_PER_MTOK;
    assert CostUSD(p, a + c, b + d) == (x + y) / TOKENS_PER_MTOK;
  }

  /** Whatever counts an upstream reports, a price never credits the tenant. */
  lemma CostNeverCredits(t: Table, kind: string, model: string, u: Usage)
    requires RatesOK(t)
    ensures Cost(t, kind, model, u).Some? ==> Cost(t, kind, model, u).value >= 0.0
  {
    if Key(kind, model) in t.prices {
      var p := t.prices[Key(kind, model)];
      assert MaxInt(0, u.prompt) as real * p.inputPerMTok >= 0.0;
      assert MaxInt(0, u.completion) as real * p.outputPerMTok >= 0.0;
    }
  }

  /** Only the first separator counts: kinds without one cannot share a price by accident, even
      though model ids contain it. */
  lemma PricesNotShared(kind: string, model: string, kind': string, model': string)
    requires '/' !in kind && '/' !in kind'
    ensures Key(kind, model) == Key(kind', model') <==> kind == kind' && model == model'
  {
    var a, b := Key(kind, model), Key(kind', model');
    assert a[|kind|] == '/' && b[|kind'|] == '/';
    if a == b {
      assert kind == a[..|kind|] == b[..|kind|] == kind';
      assert model == a[|kind| + 1..] == b[|kind| + 1..] == model';
    }
  }

  /** What an estimate of so many tokens is worth: the price of the model that will be billed, zero
      for one that is not priced. */
  function EstimateUSD(table: Option<Table>, resolve: Option<string -> (string, string)>, model: string,
                       promptTokens: int, completionTokens: int): real
  {
    if table.None? || resolve.None? then 0.0
    else
      var (kind, upstream) := resolve.value(model);
      var cost := Cost(table.value, kind, if upstream != "" then upstream else model, Usage(promptTokens, completionTokens, 0));
      if kind == "" || cost.None? then 0.0 else cost.value
  }

  lemma EstimateNeverNegative(table: Option<Table>, resolve: Option<string -> (string, string)>, model: string,
                              promptTokens: int, completionTokens: int)
    requires table.Some? ==> RatesOK(table.value)
    ensures EstimateUSD(table, resolve, model, promptTokens, completionTokens) >= 0.0
  {
    if table.Some? && resolve.Some? {
      var (kind, upstream) := resolve.value(model);
      CostNeverCredits(table.value, kind, if upstream != "" then upstream else model, Usage(promptTokens, completionTokens, 0));
    }
  }
}
