/** What a caller of the semantic store can count on, told from what was added: nothing stale, nobody
    else's, and nothing fit to serve held back; and what a score measures. */
module SemanticLaws {
  import opened Common
  import opened Similarity
  import opened SemanticSpec

  // ----- scores

  lemma DifferenceStep(x: real, y: real)
    ensures (x - y) * (x - y) == x * x + y * y - 2.0 * (x * y)
  {
  }

  /** The law of cosines: the squared length of the difference. */
  lemma {:induction false} LawOfCosines(a: Vector, b: Vector, d: Vector, n: nat)
    requires n <= |a| == |b| == |d| && forall i :: 0 <= i < |a| ==> d[i] == a[i] - b[i]
    ensures Dot(d, d, n) == Dot(a, a, n) + Dot(b, b, n) - 2.0 * Dot(a, b, n)
  {
    if n > 0 {
      LawOfCosines(a, b, d, n - 1);
      DifferenceStep(a[n - 1], b[n - 1]);
    }
  }

  lemma BothNegated(x: real, y: real)
    ensures x * y == (-x) * (-y)
  {
  }

  lemma ZeroTimes(x: real, y: real)
    requires x == 0.0
    ensures x * y == 0.0
  {
  }

  lemma SquareZero(x: real, y: real, xy: real)
    requires x == y && xy == x * y
    ensures xy >= 0.0 && (xy == 0.0 <==> x == 0.0)
  {
    if x > 0.0 {
      Product(x, y);
    } else if x < 0.0 {
      BothNegated(x, y);
      Product(-x, -y);
    } else {
      ZeroTimes(x, y);
    }
  }

  /** Only the zero vector is without a direction. */
  lemma {:induction false} ZeroExactly(a: Vector, n: nat)
    requires n <= |a|
    ensures Dot(a, a, n) >= 0.0 && (Dot(a, a, n) == 0.0 <==> forall i :: 0 <= i < n ==> a[i] == 0.0)
  {
    if n > 0 {
      ZeroExactly(a, n - 1);
      SquareZero(a[n - 1], a[n - 1], a[n - 1] * a[n - 1]);
    }
  }

  // ----- what is served

  /** Event k stored an answer for tenant that may be served at now. */
  predicate Live(o: Options, es: seq<Added>, k: nat, tenant: string, now: int)
    requires k < |es|
  {
    && es[k].tenant == tenant && es[k].entry.Some? && es[k].vector != []
    && (o.ttl > 0 ==> now < es[k].now + o.ttl)
  }

  lemma {:induction false} AddedBy(es: seq<Added>, tenant: string, r: Record) returns (k: nat)
    requires r in Accepted(es, tenant)
    ensures k < |es| && es[k].tenant == tenant && es[k].vector != [] && r == Record(es[k].vector, r.entry, es[k].now)
    ensures es[k].entry == Some(r.entry)
  {
    var n := |es| - 1;
    if r in Accepted(es[..n], tenant) {
      k := AddedBy(es[..n], tenant, r);
      assert es[..n][k] == es[k];
    } else {
      k := n;
    }
  }

  /** What is served was added by that tenant, less than TTL ago, and is as similar as asked. */
  lemma ServedIsLive(o: Options, es: seq<Added>, sqrt: real -> real, tenant: string, query: Vector, now: int)
    requires o.maxPerTenant > 0 && InOrder(es) && (es != [] ==> Last(es) <= now)
    ensures match Nearest(Run(o, es), o, sqrt, tenant, query, now)
            case None => true
            case Some(hit) =>
              exists k :: 0 <= k < |es| && Live(o, es, k, tenant, now)
                && es[k].entry == Some(hit.0) && hit.1 == Cosine(sqrt, query, es[k].vector) >= o.threshold
  {
    var hit := Nearest(Run(o, es), o, sqrt, tenant, query, now);
    if hit.Some? {
      var all, sim := LastN(Accepted(es, tenant), o.maxPerTenant), v => Cosine(sqrt, query, v);
      NearestIsEager(o, es, sqrt, tenant, query, now);
      var i :| 0 <= i < |all| && Qualifies(all, i, sim, o.threshold, o.ttl, now) && hit.value == (all[i].entry, sim(all[i].vector));
      assert all[i] in Accepted(es, tenant);
      var k := AddedBy(es, tenant, all[i]);
      assert Live(o, es, k, tenant, now);
    }
  }

  lemma {:induction false} WidthStays(es: seq<Added>, k: nat)
    requires k <= |es| && Width(es[..k]) != 0
    ensures Width(es) == Width(es[..k])
  {
    if k < |es| {
      assert es[..|es| - 1][..k] == es[..k];
      WidthStays(es[..|es| - 1], k);
    } else {
      assert es[..k] == es;
    }
  }

  /** Where the answer that event k stored stands among the tenant's. */
  lemma {:induction false} AcceptedAt(es: seq<Added>, tenant: string, k: nat)
    requires k < |es| && es[k].tenant == tenant && es[k].entry.Some? && |es[k].vector| == Width(es) != 0
    ensures var n := |Accepted(es[..k + 1], tenant)|;
            0 < n <= |Accepted(es, tenant)| && Accepted(es, tenant)[n - 1] == Record(es[k].vector, es[k].entry.value, es[k].now)
    decreases |es|
  {
    var m := |es| - 1;
    WidthAt(es, k);
    if k < m {
      assert es[..m][..k + 1] == es[..k + 1] && es[..m][k] == es[k];
      AcceptedAt(es[..m], tenant, k);
    } else {
      assert es[..k + 1] == es;
    }
  }

  lemma {:induction false} WidthAt(es: seq<Added>, k: nat)
    requires k < |es| && es[k].entry.Some? && |es[k].vector| == Width(es) != 0
    ensures Width(es[..k + 1]) == Width(es) && (k < |es| - 1 ==> Width(es[..|es| - 1]) == Width(es))
  {
    var upto := es[..k + 1];
    assert upto[k] == es[k] && Acceptable(upto[k].vector, upto[k].entry);
    assert Width(upto) != 0;
    WidthStays(es, k + 1);
    if k < |es| - 1 {
      assert es[..|es| - 1][..k + 1] == upto;
      WidthStays(es[..|es| - 1], k + 1);
    }
  }

  /** An answer that is live, as similar as asked, and not pushed out by MaxPerTenant later ones is
      never missed: it, or a better one, is served. */
  lemma LiveIsServed(o: Options, es: seq<Added>, sqrt: real -> real, tenant: string, query: Vector, now: int, k: nat)
    requires o.maxPerTenant > 0 && InOrder(es) && (es != [] ==> Last(es) <= now)
    requires k < |es| && Live(o, es, k, tenant, now) && |es[k].vector| == |query| == Width(es)
    requires |Accepted(es, tenant)| - |Accepted(es[..k + 1], tenant)| < o.maxPerTenant
    requires Cosine(sqrt, query, es[k].vector) >= o.threshold
    ensures var hit := Nearest(Run(o, es), o, sqrt, tenant, query, now);
            hit.Some? && hit.value.1 >= Cosine(sqrt, query, es[k].vector)
  {
    var all, sim := LastN(Accepted(es, tenant), o.maxPerTenant), v => Cosine(sqrt, query, v);
    NearestIsEager(o, es, sqrt, tenant, query, now);
    AcceptedAt(es, tenant, k);
    var j := |Accepted(es[..k + 1], tenant)| - 1 - (|Accepted(es, tenant)| - |all|);
    assert all[j] == Record(es[k].vector, es[k].entry.value, es[k].now);
    assert Qualifies(all, j, sim, o.threshold, o.ttl, now);
  }
}
