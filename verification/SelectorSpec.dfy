/** The three orders of internal/router/selector.go over values, and what they promise. */
module SelectorSpec {
  import opened Common
  import H = HealthModel
  import opened Health

  predicate Distinct(s: seq<string>) { forall i, j :: 0 <= i < j < |s| ==> s[i] != s[j] }

  // ----- exclusion

  /** Asks about every provider in turn; asking may claim probes. */
  function AvailableFrom(b: Board, o: H.Options, chain: seq<string>, now: int): (Board, seq<string>) {
    if chain == [] then (b, [])
    else
      var (b1, ok) := AvailableOn(b, o, chain[0], now);
      var (b2, rest) := AvailableFrom(b1, o, chain[1..], now);
      (b2, (if ok then [chain[0]] else []) + rest)
  }

  /** Those of chain that keep says to keep, in order. */
  function Keep(chain: seq<string>, keep: string -> bool): seq<string> {
    if chain == [] then [] else (if keep(chain[0]) then [chain[0]] else []) + Keep(chain[1..], keep)
  }

  lemma {:induction false} KeepSame(chain: seq<string>, f: string -> bool, g: string -> bool)
    requires forall p :: p in chain ==> f(p) == g(p)
    ensures Keep(chain, f) == Keep(chain, g)
  {
    if chain != [] { KeepSame(chain[1..], f, g); }
  }

  /** Asking about one provider leaves what is known of every other alone, so the survivors are
      exactly the providers that were available when the order was asked for, in chain order. */
  lemma {:induction false} AvailableIsKeep(b: Board, o: H.Options, chain: seq<string>, now: int)
    requires Distinct(chain)
    ensures AvailableFrom(b, o, chain, now).1 == Keep(chain, p => AvailableOn(b, o, p, now).1)
    ensures forall p :: p !in chain ==> Of(AvailableFrom(b, o, chain, now).0, p) == Of(b, p)
  {
    if chain != [] {
      var b1 := AvailableOn(b, o, chain[0], now).0;
      AvailableIsKeep(b1, o, chain[1..], now);
      KeepSame(chain[1..], p => AvailableOn(b1, o, p, now).1, p => AvailableOn(b, o, p, now).1);
    }
  }

  lemma {:induction false} KeepIsSubset(chain: seq<string>, keep: string -> bool)
    ensures forall p :: p in Keep(chain, keep) <==> p in chain && keep(p)
    ensures Distinct(chain) ==> Distinct(Keep(chain, keep))
  {
    if chain != [] { KeepIsSubset(chain[1..], keep); }
  }

  // ----- least latency

  datatype Rank = Rank(name: string, ttft: Option<int>)

  /** a goes ahead of b: unsampled before sampled, then the faster. */
  predicate Ahead(a: Option<int>, b: Option<int>) {
    b.Some? && (a.None? || a.value < b.value)
  }

  /** The ranks with exactly this latency, in order. */
  function At(rs: seq<Rank>, k: Option<int>): seq<Rank> {
    if rs == [] then [] else (if rs[0].ttft == k then [rs[0]] else []) + At(rs[1..], k)
  }

  predicate Sorted(rs: seq<Rank>) { forall i, j :: 0 <= i < j < |rs| ==> !Ahead(rs[j].ttft, rs[i].ttft) }

  /** out is in with its ranks in order and ties as they were. */
  ghost predicate StablySorted(out: seq<Rank>, from: seq<Rank>) {
    Sorted(out) && forall k :: At(out, k) == At(from, k)
  }

  lemma {:induction false} AtCons(x: Rank, rest: seq<Rank>, k: Option<int>)
    ensures At([x] + rest, k) == (if x.ttft == k then [x] else []) + At(rest, k)
  {
    assert ([x] + rest)[1..] == rest;
  }

  lemma {:induction false} AtAppend(a: seq<Rank>, b: seq<Rank>, k: Option<int>)
    ensures At(a + b, k) == At(a, k) + At(b, k)
  {
    if a == [] {
      assert a + b == b;
    } else {
      var x, rest := a[0], a[1..];
      AtAppend(rest, b, k);
      AtCons(x, rest, k);
      AtCons(x, rest + b, k);
      assert a == [x] + rest && a + b == [x] + (rest + b);
    }
  }

  /** x goes behind everything not slower than it. */
  function Insert(rs: seq<Rank>, x: Rank): seq<Rank> {
    if rs == [] || Ahead(x.ttft, rs[|rs| - 1].ttft) == false then rs + [x]
    else Insert(rs[..|rs| - 1], x) + [rs[|rs| - 1]]
  }

  lemma {:induction false} InsertSorts(rs: seq<Rank>, x: Rank)
    requires Sorted(rs)
    ensures Sorted(Insert(rs, x)) && |Insert(rs, x)| == |rs| + 1
    ensures forall r :: r in Insert(rs, x) ==> r == x || r in rs
  {
    if rs != [] && Ahead(x.ttft, rs[|rs| - 1].ttft) {
      var init, last := rs[..|rs| - 1], rs[|rs| - 1];
      InsertSorts(init, x);
      var less := Insert(init, x);
      forall i | 0 <= i < |less| ensures !Ahead(last.ttft, less[i].ttft) {
        assert less[i] in less;
      }
    }
  }

  lemma {:induction false} InsertIsStable(rs: seq<Rank>, x: Rank, k: Option<int>)
    ensures At(Insert(rs, x), k) == At(rs + [x], k)
  {
    if rs != [] && Ahead(x.ttft, rs[|rs| - 1].ttft) {
      var init, last := rs[..|rs| - 1], rs[|rs| - 1];
      InsertIsStable(init, x, k);
      AtAppend(Insert(init, x), [last], k);
      AtAppend(init, [x], k);
      AtAppend(rs, [x], k);
      AtAppend(init, [last], k);
      assert rs == init + [last];
      assert At([x], k) == [] || At([last], k) == [];
    }
  }

  /** Only one order is stably sorted. */
  lemma {:induction false} StableIsUnique(a: seq<Rank>, b: seq<Rank>, from: seq<Rank>)
    requires StablySorted(a, from) && StablySorted(b, from)
    ensures a == b
    decreases |a|
  {
    if a == [] || b == [] {
      if a != [] { HeadMatches(b, a); }
      if b != [] { HeadMatches(a, b); }
    } else {
      HeadMatches(a, b);
      HeadMatches(b, a);
      Beheaded(a, b, None);
      forall k ensures At(a[1..], k) == At(b[1..], k) {
        Beheaded(a, b, k);
      }
      StableIsUnique(a[1..], b[1..], a[1..]);
      assert a == [a[0]] + a[1..] && b == [b[0]] + b[1..];
    }
  }

  lemma Beheaded(a: seq<Rank>, b: seq<Rank>, k: Option<int>)
    requires a != [] && b != [] && a[0].ttft == b[0].ttft && forall k :: At(a, k) == At(b, k)
    ensures a[0] == b[0] && At(a[1..], k) == At(b[1..], k)
  {
    var t := a[0].ttft;
    assert At(a, t) == At(b, t);
    assert At(a, t) == [a[0]] + At(a[1..], t) && At(b, t) == [b[0]] + At(b[1..], t);
    assert ([a[0]] + At(a[1..], t))[0] == a[0] && ([b[0]] + At(b[1..], t))[0] == b[0];
    assert ([a[0]] + At(a[1..], t))[1..] == At(a[1..], t) && ([b[0]] + At(b[1..], t))[1..] == At(b[1..], t);
    if k != t { assert At(a, k) == At(a[1..], k) && At(b, k) == At(b[1..], k); }
  }

  lemma {:induction false} AtMember(rs: seq<Rank>, k: Option<int>)
    ensures At(rs, k) != [] <==> exists i :: 0 <= i < |rs| && rs[i].ttft == k
  {
    if rs != [] {
      AtMember(rs[1..], k);
      if At(rs[1..], k) != [] {
        var i :| 0 <= i < |rs[1..]| && rs[1..][i].ttft == k;
        assert rs[i + 1].ttft == k;
      }
      if j :| 0 <= j < |rs| && rs[j].ttft == k && j > 0 { assert rs[1..][j - 1].ttft == k; }
    }
  }

  /** The front of one order is not behind the front of another over the same ranks. */
  lemma HeadMatches(a: seq<Rank>, b: seq<Rank>)
    requires Sorted(a) && Sorted(b) && (forall k :: At(a, k) == At(b, k)) && b != []
    ensures a != [] && !Ahead(b[0].ttft, a[0].ttft)
  {
    AtMember(b, b[0].ttft);
    AtMember(a, b[0].ttft);
    var i :| 0 <= i < |a| && a[i].ttft == b[0].ttft;
  }

  lemma {:induction false} AtCounts(rs: seq<Rank>, k: Option<int>, x: Rank)
    ensures multiset(At(rs, k))[x] == if x.ttft == k then multiset(rs)[x] else 0
  {
    if rs != [] {
      AtCounts(rs[1..], k, x);
      assert rs == [rs[0]] + rs[1..];
    }
  }

  lemma StableIsPermutation(out: seq<Rank>, from: seq<Rank>)
    requires StablySorted(out, from)
    ensures multiset(out) == multiset(from)
  {
    forall x: Rank ensures multiset(out)[x] == multiset(from)[x] {
      AtCounts(out, x.ttft, x);
      AtCounts(from, x.ttft, x);
    }
  }

  function StableSort(rs: seq<Rank>): seq<Rank> {
    if rs == [] then [] else Insert(StableSort(rs[..|rs| - 1]), rs[|rs| - 1])
  }

  lemma {:induction false} StableSortSorts(rs: seq<Rank>)
    ensures StablySorted(StableSort(rs), rs)
  {
    if rs != [] {
      var init, last := rs[..|rs| - 1], rs[|rs| - 1];
      StableSortSorts(init);
      InsertSorts(StableSort(init), last);
      assert rs == init + [last];
      forall k ensures At(StableSort(rs), k) == At(rs, k) {
        InsertIsStable(StableSort(init), last, k);
        AtAppend(StableSort(init), [last], k);
        AtAppend(init, [last], k);
      }
    }
  }

  function Ranks(b: Board, avail: seq<string>): (rs: seq<Rank>)
    ensures |rs| == |avail| && forall i :: 0 <= i < |rs| ==> rs[i] == Rank(avail[i], H.Latency(Of(b, avail[i])))
  {
    seq(|avail|, i requires 0 <= i < |avail| => Rank(avail[i], H.Latency(Of(b, avail[i]))))
  }

  function Names(rs: seq<Rank>): (names: seq<string>)
    ensures |names| == |rs| && forall i :: 0 <= i < |rs| ==> names[i] == rs[i].name
  {
    seq(|rs|, i requires 0 <= i < |rs| => rs[i].name)
  }

  function LeastLatency(b: Board, avail: seq<string>): seq<string> { Names(StableSort(Ranks(b, avail))) }

  lemma NamesAppend(a: seq<Rank>, x: Rank)
    ensures Names(a + [x]) == Names(a) + [x.name]
  {
  }

  lemma {:induction false} InsertNames(rs: seq<Rank>, x: Rank)
    ensures multiset(Names(Insert(rs, x))) == multiset(Names(rs)) + multiset{x.name}
  {
    if rs == [] || !Ahead(x.ttft, rs[|rs| - 1].ttft) {
      NamesAppend(rs, x);
    } else {
      var init, last := rs[..|rs| - 1], rs[|rs| - 1];
      InsertNames(init, x);
      NamesAppend(Insert(init, x), last);
      NamesAppend(init, last);
      assert rs == init + [last];
    }
  }

  lemma {:induction false} StableSortNames(rs: seq<Rank>)
    ensures multiset(Names(StableSort(rs))) == multiset(Names(rs))
  {
    if rs != [] {
      var init, last := rs[..|rs| - 1], rs[|rs| - 1];
      StableSortNames(init);
      InsertNames(StableSort(init), last);
      NamesAppend(init, last);
      assert rs == init + [last];
    }
  }

  /** Least latency: every available provider once, those without an average first, and then the
      faster before the slower. */
  lemma LeastLatencyOrders(b: Board, avail: seq<string>)
    ensures var out := LeastLatency(b, avail);
            && multiset(out) == multiset(avail)
            && forall i, j :: 0 <= i < j < |out| && H.Latency(Of(b, out[i])).Some? ==>
                 H.Latency(Of(b, out[j])).Some? && H.Latency(Of(b, out[i])).value <= H.Latency(Of(b, out[j])).value
  {
    var rs := Ranks(b, avail);
    var sorted := StableSort(rs);
    StableSortSorts(rs);
    StableIsPermutation(sorted, rs);
    StableSortNames(rs);
    assert Names(rs) == avail;
    forall i | 0 <= i < |sorted| ensures sorted[i].ttft == H.Latency(Of(b, sorted[i].name)) {
      assert sorted[i] in multiset(sorted) && sorted[i] in rs;
    }
  }

  /** The ranks at one latency, by name, come out in chain order. */
  lemma TiesInChainOrder(b: Board, avail: seq<string>, k: Option<int>)
    ensures Names(At(StableSort(Ranks(b, avail)), k)) == Keep(avail, p => H.Latency(Of(b, p)) == k)
  {
    StableSortSorts(Ranks(b, avail));
    TiesKept(b, avail, k);
  }

  lemma NamesCons(r: Rank, rest: seq<Rank>)
    ensures Names([r] + rest) == [r.name] + Names(rest)
  {
  }

  lemma {:induction false} TiesKept(b: Board, avail: seq<string>, k: Option<int>)
    ensures Names(At(Ranks(b, avail), k)) == Keep(avail, p => H.Latency(Of(b, p)) == k)
  {
    if avail != [] {
      TiesKept(b, avail[1..], k);
      var r, rest := Rank(avail[0], H.Latency(Of(b, avail[0]))), Ranks(b, avail[1..]);
      assert Ranks(b, avail) == [r] + rest;
      AtCons(r, rest, k);
      NamesCons(r, At(rest, k));
    }
  }
}
