/** internal/cache/semantic.go as it is written: slices per tenant, pruned in place on a write and
    skipped over on a read. */
module SemanticStore {
  import opened Common
  import opened Similarity
  import Spec = SemanticSpec

  class Store {
    const opts: Spec.Options
    const sqrt: real -> real
    var dims: nat
    var tenants: map<string, seq<Spec.Record>>

    constructor (opts: Spec.Options, sqrt: real -> real)
      ensures Model() == Spec.Store(0, map[]) && this.opts == Spec.WithDefaults(opts) && this.sqrt == sqrt
    {
      this.opts, this.sqrt := Spec.WithDefaults(opts), sqrt;
      dims, tenants := 0, map[];
    }

    function Model(): Spec.Store
      reads this
    {
      Spec.Store(dims, tenants)
    }

    /** Adds an answer under its vector; evicted counts what had to go. */
    method Add(tenant: string, embedding: Vector, entry: Option<string>, now: int) returns (evicted: nat)
      requires opts.maxPerTenant > 0
      modifies this
      ensures Model() == Spec.Add(old(Model()), opts, tenant, embedding, entry, now)
      ensures evicted == if Spec.Acceptable(embedding, entry) && (old(dims) == 0 || |embedding| == old(dims))
                         then |Spec.Held(old(Model()), tenant)| + 1 - |Spec.Held(Model(), tenant)| else 0
    {
      evicted := 0;
      if entry.None? || |embedding| == 0 {
        return;
      }
      if dims == 0 {
        dims := |embedding|;
      }
      if |embedding| != dims {
        return;
      }
      var records := if tenant in tenants then tenants[tenant] else [];
      records, evicted := DropExpired(records, now);
      records := records + [Spec.Record(embedding, entry.value, now)];
      var excess := |records| - opts.maxPerTenant;
      if excess > 0 {
        records := records[excess..];
        evicted := evicted + excess;
      }
      tenants := tenants[tenant := records];
    }

    /** The expired records in front go. */
    method DropExpired(records: seq<Spec.Record>, now: int) returns (kept: seq<Spec.Record>, cut: nat)
      ensures cut == Spec.Stale(records, opts.ttl, now) && kept == records[cut..]
    {
      if opts.ttl <= 0 || |records| == 0 {
        StaleIs(records, opts.ttl, now, 0);
        return records, 0;
      }
      cut := 0;
      while cut < |records| && Spec.Expired(records[cut], opts.ttl, now)
        invariant cut <= |records| && forall i :: 0 <= i < cut ==> Spec.Expired(records[i], opts.ttl, now)
      {
        cut := cut + 1;
      }
      StaleIs(records, opts.ttl, now, cut);
      kept := records[cut..];
    }

    /** The closest answer this tenant holds, if it clears the threshold. */
    method Nearest(tenant: string, embedding: Vector, now: int) returns (hit: Option<(string, real)>)
      ensures hit == Spec.Nearest(Model(), opts, sqrt, tenant, embedding, now)
    {
      if |embedding| == 0 || |embedding| != dims {
        return None;
      }
      hit := ScanTenant(if tenant in tenants then tenants[tenant] else [], embedding, now);
    }

    /** One pass: a later record has to be strictly better. */
    method ScanTenant(records: seq<Spec.Record>, query: Vector, now: int) returns (best: Option<(string, real)>)
      ensures best == Spec.Best(records, v => Cosine(sqrt, query, v), opts.threshold, opts.ttl, now)
    {
      ghost var sim := v => Cosine(sqrt, query, v);
      best := None;
      var i := 0;
      while i < |records|
        invariant i <= |records|
        invariant best == Spec.Best(records[..i], sim, opts.threshold, opts.ttl, now)
      {
        var r := records[i];
        assert records[..i + 1][..i] == records[..i];
        i := i + 1;
        if Spec.Expired(r, opts.ttl, now) {
          continue;
        }
        var score := CosineSimilarity(sqrt, query, r.vector);
        if score < opts.threshold {
          continue;
        }
        if best.None? || score > best.value.1 {
          best := Some((r.entry, score));
        }
      }
      assert records[..i] == records;
    }
  }

  /** The stale prefix is the one that stops at the first fresh record. */
  lemma {:induction false} StaleIs(rs: seq<Spec.Record>, ttl: int, now: int, n: nat)
    requires n <= |rs| && (forall i :: 0 <= i < n ==> Spec.Expired(rs[i], ttl, now))
    requires n < |rs| ==> !Spec.Expired(rs[n], ttl, now)
    ensures Spec.Stale(rs, ttl, now) == n
  {
  }
}
