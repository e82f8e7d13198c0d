/** The semantic store of internal/cache/semantic.go as values, and the eager history it answers
    for: every vector ever accepted, the latest few per tenant, none of them pruned. */
module SemanticSpec {
  import opened Common
  import opened Similarity

  const DEFAULT_SIMILARITY_THRESHOLD: real := 0.95
  const DEFAULT_MAX_PER_TENANT: int := 1024

  datatype Options = Options(threshold: real, maxPerTenant: int, ttl: int)

  function WithDefaults(o: Options): (d: Options)
    ensures d.threshold > 0.0 && d.maxPerTenant > 0
  {
    o.(threshold := if o.threshold <= 0.0 then DEFAULT_SIMILARITY_THRESHOLD else o.threshold,
       maxPerTenant := if o.maxPerTenant <= 0 then DEFAULT_MAX_PER_TENANT else o.maxPerTenant)
  }

  /** entry stands for the stored answer. */
  datatype Record = Record(vector: Vector, entry: string, storedAt: int)

  predicate Expired(r: Record, ttl: int, now: int) { ttl > 0 && now - r.storedAt >= ttl }

  /** The records not expired, in order. */
  function Fresh(rs: seq<Record>, ttl: int, now: int): seq<Record> {
    if rs == [] then [] else (if Expired(rs[0], ttl, now) then [] else [rs[0]]) + Fresh(rs[1..], ttl, now)
  }

  /** How many leading records have expired. */
  function Stale(rs: seq<Record>, ttl: int, now: int): (n: nat)
    ensures n <= |rs| && forall i :: 0 <= i < n ==> Expired(rs[i], ttl, now)
    ensures n < |rs| ==> !Expired(rs[n], ttl, now)
  {
    if rs == [] || !Expired(rs[0], ttl, now) then 0 else 1 + Stale(rs[1..], ttl, now)
  }

  function LastN(rs: seq<Record>, n: nat): (out: seq<Record>)
    ensures |out| == MinInt(n, |rs|)
  {
    if |rs| <= n then rs else rs[|rs| - n..]
  }

  /** What one tenant holds after one more record. */
  function Stored(rs: seq<Record>, r: Record, max: nat, ttl: int, now: int): seq<Record> {
    LastN(rs[Stale(rs, ttl, now)..] + [r], max)
  }

  /** dims is the width adopted, 0 until the first vector is accepted. */
  datatype Store = Store(dims: nat, tenants: map<string, seq<Record>>)

  function Held(s: Store, tenant: string): seq<Record> { if tenant in s.tenants then s.tenants[tenant] else [] }

  predicate Acceptable(v: Vector, entry: Option<string>) { entry.Some? && v != [] }

  function Add(s: Store, o: Options, tenant: string, v: Vector, entry: Option<string>, now: int): Store
    requires o.maxPerTenant > 0
  {
    if !Acceptable(v, entry) then s
    else
      var dims := if s.dims == 0 then |v| else s.dims;
      if |v| != dims then s.(dims := dims)
      else
        Store(dims, s.tenants[tenant := Stored(Held(s, tenant), Record(v, entry.value, now), o.maxPerTenant, o.ttl, now)])
  }

  // ----- the nearest record

  /** Record i is a candidate for the query. */
  predicate Qualifies(rs: seq<Record>, i: nat, sim: Vector -> real, threshold: real, ttl: int, now: int)
    requires i < |rs|
  {
    !Expired(rs[i], ttl, now) && sim(rs[i].vector) >= threshold
  }

  /** The earliest candidate of maximal score, and that score; None exactly when there is none. */
  ghost predicate IsBest(rs: seq<Record>, sim: Vector -> real, threshold: real, ttl: int, now: int, best: Option<(string, real)>) {
    match best
    case None => forall i :: 0 <= i < |rs| ==> !Qualifies(rs, i, sim, threshold, ttl, now)
    case Some(b) =>
      exists i ::
        && 0 <= i < |rs| && Qualifies(rs, i, sim, threshold, ttl, now)
        && b == (rs[i].entry, sim(rs[i].vector))
        && (forall j :: 0 <= j < |rs| && Qualifies(rs, j, sim, threshold, ttl, now) ==> sim(rs[j].vector) <= sim(rs[i].vector))
        && (forall j :: 0 <= j < i && Qualifies(rs, j, sim, threshold, ttl, now) ==> sim(rs[j].vector) < sim(rs[i].vector))
  }

  /** The scan as a function. */
  function Best(rs: seq<Record>, sim: Vector -> real, threshold: real, ttl: int, now: int): Option<(string, real)> {
    if rs == [] then None
    else
      var before, r := Best(rs[..|rs| - 1], sim, threshold, ttl, now), rs[|rs| - 1];
      if Expired(r, ttl, now) || sim(r.vector) < threshold then before
      else if before.None? || sim(r.vector) > before.value.1 then Some((r.entry, sim(r.vector)))
      else before
  }

  lemma {:induction false} BestIsBest(rs: seq<Record>, sim: Vector -> real, threshold: real, ttl: int, now: int)
    ensures IsBest(rs, sim, threshold, ttl, now, Best(rs, sim, threshold, ttl, now))
  {
    if rs != [] {
      var n := |rs| - 1;
      var init, r := rs[..n], rs[n];
      BestIsBest(init, sim, threshold, ttl, now);
      assert forall j :: 0 <= j < n ==> (Qualifies(rs, j, sim, threshold, ttl, now) <==> Qualifies(init, j, sim, threshold, ttl, now));
      var before := Best(init, sim, threshold, ttl, now);
      if Qualifies(rs, n, sim, threshold, ttl, now) && (before.None? || sim(r.vector) > before.value.1) {
        BestAtLast(rs, sim, threshold, ttl, now, before);
      } else if before.Some? {
        BestBefore(rs, sim, threshold, ttl, now, before);
      }
    }
  }

  lemma BestAtLast(rs: seq<Record>, sim: Vector -> real, threshold: real, ttl: int, now: int, before: Option<(string, real)>)
    requires rs != [] && IsBest(rs[..|rs| - 1], sim, threshold, ttl, now, before)
    requires Qualifies(rs, |rs| - 1, sim, threshold, ttl, now) && (before.None? || sim(rs[|rs| - 1].vector) > before.value.1)
    ensures IsBest(rs, sim, threshold, ttl, now, Some((rs[|rs| - 1].entry, sim(rs[|rs| - 1].vector))))
  {
    var n := |rs| - 1;
    var init := rs[..n];
    forall j | 0 <= j < n && Qualifies(rs, j, sim, threshold, ttl, now) ensures sim(rs[j].vector) < sim(rs[n].vector) {
      assert Qualifies(init, j, sim, threshold, ttl, now);
    }
  }

  lemma BestBefore(rs: seq<Record>, sim: Vector -> real, threshold: real, ttl: int, now: int, before: Option<(string, real)>)
    requires rs != [] && before.Some? && IsBest(rs[..|rs| - 1], sim, threshold, ttl, now, before)
    requires Qualifies(rs, |rs| - 1, sim, threshold, ttl, now) ==> sim(rs[|rs| - 1].vector) <= before.value.1
    ensures IsBest(rs, sim, threshold, ttl, now, before)
  {
    var n := |rs| - 1;
    var init := rs[..n];
    var i :| 0 <= i < n && Qualifies(init, i, sim, threshold, ttl, now) && before.value == (init[i].entry, sim(init[i].vector))
          && (forall j :: 0 <= j < n && Qualifies(init, j, sim, threshold, ttl, now) ==> sim(init[j].vector) <= sim(init[i].vector))
          && (forall j :: 0 <= j < i && Qualifies(init, j, sim, threshold, ttl, now) ==> sim(init[j].vector) < sim(init[i].vector));
    assert Qualifies(rs, i, sim, threshold, ttl, now);
    forall j | 0 <= j < |rs| && Qualifies(rs, j, sim, threshold, ttl, now) ensures sim(rs[j].vector) <= sim(rs[i].vector) {
      if j < n { assert Qualifies(init, j, sim, threshold, ttl, now); }
    }
    forall j | 0 <= j < i && Qualifies(rs, j, sim, threshold, ttl, now) ensures sim(rs[j].vector) < sim(rs[i].vector) {
      assert Qualifies(init, j, sim, threshold, ttl, now);
    }
  }

  /** Only one answer is the best. */
  lemma BestIsUnique(rs: seq<Record>, sim: Vector -> real, threshold: real, ttl: int, now: int,
                     a: Option<(string, real)>, b: Option<(string, real)>)
    requires IsBest(rs, sim, threshold, ttl, now, a) && IsBest(rs, sim, threshold, ttl, now, b)
    ensures a == b
  {
  }

  lemma {:induction false} FreshAppend(rs: seq<Record>, r: Record, ttl: int, now: int)
    ensures Fresh(rs + [r], ttl, now) == Fresh(rs, ttl, now) + if Expired(r, ttl, now) then [] else [r]
  {
    if rs == [] {
      assert rs + [r] == [r];
    } else {
      FreshAppend(rs[1..], r, ttl, now);
      assert (rs + [r])[1..] == rs[1..] + [r];
    }
  }

  /** The scan sees nothing but the fresh records. */
  lemma {:induction false} BestOfFresh(rs: seq<Record>, sim: Vector -> real, threshold: real, ttl: int, now: int)
    ensures Best(rs, sim, threshold, ttl, now) == Best(Fresh(rs, ttl, now), sim, threshold, ttl, now)
  {
    if rs != [] {
      var n := |rs| - 1;
      var init, r := rs[..n], rs[n];
      BestOfFresh(init, sim, threshold, ttl, now);
      FreshAppend(init, r, ttl, now);
      assert rs == init + [r];
      var fresh_ := Fresh(init, ttl, now);
      if Expired(r, ttl, now) {
        assert fresh_ + [] == fresh_;
      } else {
        assert (fresh_ + [r])[..|fresh_|] == fresh_;
      }
    }
  }

  // ----- runs against the eager history

  datatype Added = Added(tenant: string, vector: Vector, entry: Option<string>, now: int)

  function Run(o: Options, es: seq<Added>): Store
    requires o.maxPerTenant > 0
  {
    if es == [] then Store(0, map[])
    else
      var e := es[|es| - 1];
      Add(Run(o, es[..|es| - 1]), o, e.tenant, e.vector, e.entry, e.now)
  }

  /** The width of the first acceptable vector, 0 before there is one. */
  function Width(es: seq<Added>): nat {
    if es == [] then 0
    else
      var w, e := Width(es[..|es| - 1]), es[|es| - 1];
      if w == 0 && Acceptable(e.vector, e.entry) then |e.vector| else w
  }

  /** Everything of a tenant's that was ever accepted, oldest first. */
  function Accepted(es: seq<Added>, tenant: string): seq<Record> {
    if es == [] then []
    else
      var e := es[|es| - 1];
      Accepted(es[..|es| - 1], tenant) +
      if e.tenant == tenant && Acceptable(e.vector, e.entry) && |e.vector| == Width(es) then [Record(e.vector, e.entry.value, e.now)] else []
  }

  predicate InOrder(es: seq<Added>) { forall i, j :: 0 <= i < j < |es| ==> es[i].now <= es[j].now }

  function Last(es: seq<Added>): int
    requires es != []
  {
    es[|es| - 1].now
  }

  /** held is the end of all, and what is missing in front has expired. */
  predicate Trails(held: seq<Record>, all: seq<Record>, ttl: int, now: int) {
    var gone := |all| - |held|;
    gone >= 0 && all[gone..] == held && forall i :: 0 <= i < gone ==> Expired(all[i], ttl, now)
  }

  lemma TrailsLater(held: seq<Record>, all: seq<Record>, ttl: int, now: int, later: int)
    requires Trails(held, all, ttl, now) && now <= later
    ensures Trails(held, all, ttl, later)
  {
  }

  lemma TrailsCut(held: seq<Record>, all: seq<Record>, cut: nat, ttl: int, now: int)
    requires Trails(held, all, ttl, now) && cut <= |held| && forall i :: 0 <= i < cut ==> Expired(held[i], ttl, now)
    ensures Trails(held[cut..], all, ttl, now)
  {
    var gone := |all| - |held|;
    forall i | gone <= i < gone + cut ensures Expired(all[i], ttl, now) {
      assert all[gone..][i - gone] == held[i - gone];
    }
    assert all[gone + cut..] == all[gone..][cut..];
  }

  lemma TrailsGrown(held: seq<Record>, all: seq<Record>, r: Record, ttl: int, now: int)
    requires Trails(held, all, ttl, now)
    ensures Trails(held + [r], all + [r], ttl, now)
  {
    var gone := |all| - |held|;
    assert (all + [r])[gone..] == all[gone..] + [r];
  }

  lemma TrailsTrimmed(held: seq<Record>, all: seq<Record>, max: nat, ttl: int, now: int)
    requires Trails(held, all, ttl, now)
    ensures Trails(LastN(held, max), LastN(all, max), ttl, now)
  {
    var gone := |all| - |held|;
    if |held| > max {
      assert all[|all| - max..] == all[gone..][|held| - max..];
    } else if |all| > max {
      var skip := |all| - max;
      assert all[skip..][gone - skip..] == all[gone..];
    }
  }

  lemma TrailsStored(held: seq<Record>, all: seq<Record>, r: Record, max: nat, ttl: int, now: int)
    requires Trails(held, all, ttl, now)
    ensures Trails(Stored(held, r, max, ttl, now), LastN(all + [r], max), ttl, now)
  {
    var cut := Stale(held, ttl, now);
    TrailsCut(held, all, cut, ttl, now);
    TrailsGrown(held[cut..], all, r, ttl, now);
    TrailsTrimmed(held[cut..] + [r], all + [r], max, ttl, now);
  }

  lemma {:induction false} LastNOfLastN(all: seq<Record>, r: Record, max: nat)
    requires max > 0
    ensures LastN(LastN(all, max) + [r], max) == LastN(all + [r], max)
  {
    if |all| > max { assert LastN(all, max) + [r] == (all + [r])[|all| - max..]; }
  }

  lemma {:induction false} FreshOfTrail(held: seq<Record>, all: seq<Record>, ttl: int, now: int)
    requires Trails(held, all, ttl, now)
    ensures Fresh(held, ttl, now) == Fresh(all, ttl, now)
    decreases |all|
  {
    if |all| > |held| {
      assert all[1..][|all| - |held| - 1..] == held;
      FreshOfTrail(held, all[1..], ttl, now);
    } else {
      assert all == held;
    }
  }

  lemma {:induction false} RunTrails(o: Options, es: seq<Added>, tenant: string)
    requires o.maxPerTenant > 0 && InOrder(es) && es != []
    ensures Run(o, es).dims == Width(es)
    ensures Trails(Held(Run(o, es), tenant), LastN(Accepted(es, tenant), o.maxPerTenant), o.ttl, Last(es))
  {
    var init, e := es[..|es| - 1], es[|es| - 1];
    if init != [] {
      RunTrails(o, init, tenant);
      TrailsLater(Held(Run(o, init), tenant), LastN(Accepted(init, tenant), o.maxPerTenant), o.ttl, Last(init), Last(es));
    }
    var held, all := Held(Run(o, init), tenant), Accepted(init, tenant);
    if e.tenant == tenant && Acceptable(e.vector, e.entry) && |e.vector| == Width(es) {
      var r := Record(e.vector, e.entry.value, e.now);
      TrailsStored(held, LastN(all, o.maxPerTenant), r, o.maxPerTenant, o.ttl, e.now);
      LastNOfLastN(all, r, o.maxPerTenant);
    } else {
      assert Accepted(es, tenant) == all + [] == all;
    }
  }

  /** With a clock that does not run backwards, what the store still holds of a tenant's and has
      not expired is exactly what has not expired of the last MaxPerTenant ever accepted. */
  lemma LazyIsEager(o: Options, es: seq<Added>, tenant: string, now: int)
    requires o.maxPerTenant > 0 && InOrder(es) && (es != [] ==> Last(es) <= now)
    ensures var held := Held(Run(o, es), tenant);
            && Fresh(held, o.ttl, now) == Fresh(LastN(Accepted(es, tenant), o.maxPerTenant), o.ttl, now)
            && |held| <= o.maxPerTenant
  {
    if es != [] {
      var held, all := Held(Run(o, es), tenant), LastN(Accepted(es, tenant), o.maxPerTenant);
      RunTrails(o, es, tenant);
      TrailsLater(held, all, o.ttl, Last(es), now);
      FreshOfTrail(held, all, o.ttl, now);
    }
  }

  /** What Nearest answers. */
  function Nearest(s: Store, o: Options, sqrt: real -> real, tenant: string, query: Vector, now: int): Option<(string, real)> {
    if |query| == 0 || |query| != s.dims then None
    else Best(Held(s, tenant), v => Cosine(sqrt, query, v), o.threshold, o.ttl, now)
  }

  /** Nearest answers as a scan of the whole history would: the earliest of the most similar among
      the tenant's last MaxPerTenant accepted vectors still fresh, and a miss exactly when none
      reaches the threshold. */
  lemma NearestIsEager(o: Options, es: seq<Added>, sqrt: real -> real, tenant: string, query: Vector, now: int)
    requires o.maxPerTenant > 0 && InOrder(es) && (es != [] ==> Last(es) <= now)
    ensures var all := LastN(Accepted(es, tenant), o.maxPerTenant);
            if |query| == 0 || |query| != Width(es) then Nearest(Run(o, es), o, sqrt, tenant, query, now) == None
            else IsBest(all, v => Cosine(sqrt, query, v), o.threshold, o.ttl, now, Nearest(Run(o, es), o, sqrt, tenant, query, now))
  {
    var all, held := LastN(Accepted(es, tenant), o.maxPerTenant), Held(Run(o, es), tenant);
    var sim := v => Cosine(sqrt, query, v);
    if es != [] { RunTrails(o, es, tenant); }
    LazyIsEager(o, es, tenant, now);
    BestOfFresh(held, sim, o.threshold, o.ttl, now);
    BestOfFresh(all, sim, o.threshold, o.ttl, now);
    BestIsBest(all, sim, o.threshold, o.ttl, now);
  }

  /** A vector without a direction is never served, whatever is stored. */
  lemma NoDirectionNoHit(s: Store, o: Options, sqrt: real -> real, tenant: string, query: Vector, now: int)
    requires o.threshold > 0.0 && Dot(query, query, |query|) == 0.0
    ensures Nearest(s, o, sqrt, tenant, query, now) == None
  {
    NoneReach(Held(s, tenant), v => Cosine(sqrt, query, v), o.threshold, o.ttl, now);
  }

  lemma {:induction false} NoneReach(rs: seq<Record>, sim: Vector -> real, threshold: real, ttl: int, now: int)
    requires forall v :: sim(v) < threshold
    ensures Best(rs, sim, threshold, ttl, now) == None
  {
    if rs != [] { NoneReach(rs[..|rs| - 1], sim, threshold, ttl, now); }
  }
}
