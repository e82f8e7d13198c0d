/** The exact cache as one list of entries, most recently used first, and what it remembers
    over whole runs of Get and Put. */
module RecencyList {
  import opened Common

  datatype Key = Key(tenant: string, model: string, hash: string)

  /** A stored answer by value; bytes are chars. */
  datatype Payload = Payload(body: string, frames: seq<string>, usd: real, provider: string, model: string, storedAt: int)

  datatype Item = Item(key: Key, payload: Payload, expiresAt: int)

  type Items = seq<Item>

  /** Where k is in the list, or -1. */
  function IndexOf(items: Items, k: Key): (i: int)
    ensures -1 <= i < |items|
    ensures i >= 0 ==> items[i].key == k
    ensures i < 0 ==> forall j :: 0 <= j < |items| ==> items[j].key != k
  {
    if items == [] then -1
    else if items[0].key == k then 0
    else var i := IndexOf(items[1..], k);
         if i < 0 then (assert forall j :: 0 < j < |items| ==> items[j] == items[1..][j - 1]; -1) else i + 1
  }

  predicate Distinct(items: Items) {
    forall i, j :: 0 <= i < j < |items| ==> items[i].key != items[j].key
  }

  function RemoveAt<T>(s: seq<T>, i: int): seq<T>
    requires 0 <= i < |s|
  {
    s[..i] + s[i + 1..]
  }

  lemma RemovedKept<T>(s: seq<T>, i: int)
    requires 0 <= i < |s|
    ensures forall j :: 0 <= j < |s| - 1 ==> RemoveAt(s, i)[j] == s[if j < i then j else j + 1]
  {
  }

  /** A miss leaves the list alone, an expired entry is dropped, a live one moves to the front. */
  function Get(items: Items, k: Key, now: int): (Items, Option<Payload>) {
    var i := IndexOf(items, k);
    if i < 0 then (items, None)
    else if now >= items[i].expiresAt then (RemoveAt(items, i), None)
    else ([items[i]] + RemoveAt(items, i), Some(items[i].payload))
  }

  function FrontLoaded(items: Items, item: Item): Items {
    var i := IndexOf(items, item.key);
    [item] + if i < 0 then items else RemoveAt(items, i)
  }

  function Put(items: Items, item: Item, max: nat): Items {
    var all := FrontLoaded(items, item);
    if IndexOf(items, item.key) < 0 && |all| > max then all[..max] else all
  }

  // ----- runs

  datatype Op = Getting(k: Key, now: int) | Putting(k: Key, p: Payload, now: int)

  datatype Act = Stored(k: Key, p: Payload, at: int) | Hit(k: Key, p: Payload, at: int) | Missed(k: Key, at: int)

  datatype Trace = Empty | And(past: Trace, last: Act)

  datatype Config = Config(max: nat, ttl: int)

  datatype Cache = Cache(items: Items, clock: int, trace: Trace)

  function Step(c: Cache, op: Op, cfg: Config): Cache {
    match op
    case Getting(k, now) =>
      var (items, hit) := Get(c.items, k, now);
      Cache(items, now, And(c.trace, if hit.Some? then Hit(k, hit.value, now) else Missed(k, now)))
    case Putting(k, p, now) =>
      Cache(Put(c.items, Item(k, p, now + cfg.ttl), cfg.max), now, And(c.trace, Stored(k, p, now)))
  }

  function Run(c: Cache, ops: seq<Op>, cfg: Config): Cache
    decreases ops
  {
    if ops == [] then c else Run(Step(c, ops[0], cfg), ops[1..], cfg)
  }

  predicate Timely(clock: int, ops: seq<Op>)
    decreases ops
  {
    ops == [] || (clock <= ops[0].now && Timely(ops[0].now, ops[1..]))
  }

  /** The latest payload stored under k, and when. */
  function LatestPut(t: Trace, k: Key): Option<(Payload, int)> {
    match t
    case Empty => None
    case And(past, e) => if e.Stored? && e.k == k then Some((e.p, e.at)) else LatestPut(past, k)
  }

  /** The latest Put of k has outlived its time at at. */
  predicate RanOut(t: Trace, k: Key, at: int, ttl: int) {
    var put := LatestPut(t, k);
    put.Some? && put.value.1 + ttl <= at
  }

  /** The other keys stored or hit since k's own last store or hit, and not found expired since. */
  function TouchedSince(t: Trace, k: Key, ttl: int): set<Key> {
    match t
    case Empty => {}
    case And(past, e) =>
      if e.Missed? then TouchedSince(past, k, ttl) - if RanOut(past, e.k, e.at, ttl) then {e.k} else {}
      else if e.k == k then {}
      else TouchedSince(past, k, ttl) + {e.k}
  }

  /** At some moment since k's last store or hit, MaxEntries other keys counted against it. */
  predicate Crowded(t: Trace, k: Key, cfg: Config) {
    match t
    case Empty => false
    case And(past, e) => (e.Missed? || e.k != k) && (Crowded(past, k, cfg) || |TouchedSince(t, k, cfg.ttl)| >= cfg.max)
  }

  /** The last that was heard of k is a miss. */
  predicate LastMissed(t: Trace, k: Key) {
    match t
    case Empty => false
    case And(past, e) => if e.k == k then e.Missed? else LastMissed(past, k)
  }

  /** What a cache of this size should hold, told from the trace alone. */
  predicate Retained(t: Trace, k: Key, cfg: Config) {
    LatestPut(t, k).Some? && !Crowded(t, k, cfg) && !LastMissed(t, k)
  }

  function Keys(items: Items): set<Key> {
    set i | 0 <= i < |items| :: items[i].key
  }

  ghost predicate HeldOK(items: Items, t: Trace, ttl: int) {
    forall i :: 0 <= i < |items| ==>
      LatestPut(t, items[i].key) == Some((items[i].payload, items[i].expiresAt - ttl))
  }

  /** Ahead of an entry are exactly the keys touched since it was. */
  ghost predicate OrderOK(items: Items, t: Trace, ttl: int) {
    forall i :: 0 <= i < |items| ==> TouchedSince(t, items[i].key, ttl) == Keys(items[..i])
  }

  ghost predicate ListOK(items: Items, t: Trace, ttl: int) {
    Distinct(items) && HeldOK(items, t, ttl) && OrderOK(items, t, ttl)
  }

  ghost predicate MembersOK(items: Items, t: Trace, cfg: Config) {
    forall k :: IndexOf(items, k) >= 0 <==> Retained(t, k, cfg)
  }

  /** What was missed had been crowded out or had run out. */
  ghost predicate MissesOK(t: Trace, clock: int, cfg: Config) {
    forall k :: LatestPut(t, k).Some? && LastMissed(t, k) ==> Crowded(t, k, cfg) || RanOut(t, k, clock, cfg.ttl)
  }

  ghost predicate Inv(c: Cache, cfg: Config) {
    && ListOK(c.items, c.trace, cfg.ttl) && |c.items| <= cfg.max
    && MembersOK(c.items, c.trace, cfg) && MissesOK(c.trace, c.clock, cfg)
  }

  // ----- counting

  lemma {:induction false} KeyCount(items: Items)
    requires Distinct(items)
    ensures |Keys(items)| == |items|
  {
    if items != [] {
      var rest := items[..|items| - 1];
      KeyCount(rest);
      assert Keys(items) == Keys(rest) + {items[|items| - 1].key};
    }
  }

  lemma Bigger(a: set<Key>, b: set<Key>)
    requires a <= b
    ensures |a| <= |b|
  {
    if a != {} {
      var x :| x in a;
      Bigger(a - {x}, b - {x});
    }
  }

  lemma FullIsCrowded(t: Trace, k: Key, cfg: Config)
    requires cfg.max > 0 && |TouchedSince(t, k, cfg.ttl)| >= cfg.max
    ensures Crowded(t, k, cfg)
  {
  }

  /** A miss crowds nobody out. */
  lemma MissCrowdsNobody(t: Trace, e: Act, k: Key, cfg: Config)
    requires e.Missed? && cfg.max > 0
    ensures Crowded(And(t, e), k, cfg) == Crowded(t, k, cfg)
  {
    Bigger(TouchedSince(And(t, e), k, cfg.ttl), TouchedSince(t, k, cfg.ttl));
    if |TouchedSince(t, k, cfg.ttl)| >= cfg.max { FullIsCrowded(t, k, cfg); }
  }

  // ----- a miss

  lemma {:induction false} KeysWithout(items: Items, i: int, j: int)
    requires Distinct(items) && 0 <= i < |items| && 0 <= j < |items| && i != j
    ensures var r := RemoveAt(items, i);
            var j' := if j < i then j else j - 1;
            r[j'] == items[j] && Keys(r[..j']) == Keys(items[..j]) - {items[i].key}
  {
    RemovedKept(items, i);
    var r, j' := RemoveAt(items, i), if j < i then j else j - 1;
    forall k | k in Keys(items[..j]) - {items[i].key} ensures k in Keys(r[..j']) {
      var a :| 0 <= a < j && items[a].key == k;
      assert r[..j'][if a < i then a else a - 1] == items[a];
    }
    forall k | k in Keys(r[..j']) ensures k in Keys(items[..j]) - {items[i].key} {
      var a :| 0 <= a < j' && r[a].key == k;
      assert items[..j][if a < i then a else a + 1] == r[a];
    }
  }

  /** Where an entry of the shortened list was. */
  lemma Was(items: Items, i: int, j': int)
    requires Distinct(items) && 0 <= i < |items| && 0 <= j' < |items| - 1
    ensures var j := if j' < i then j' else j' + 1;
            RemoveAt(items, i)[j'] == items[j] && Keys(RemoveAt(items, i)[..j']) == Keys(items[..j]) - {items[i].key}
    ensures RemoveAt(items, i)[j'].key != items[i].key
  {
    RemovedKept(items, i);
    KeysWithout(items, i, if j' < i then j' else j' + 1);
  }

  lemma Without(items: Items, i: int, u: Key)
    requires Distinct(items) && 0 <= i < |items|
    ensures Distinct(RemoveAt(items, i))
    ensures IndexOf(RemoveAt(items, i), u) >= 0 <==> IndexOf(items, u) >= 0 && u != items[i].key
  {
    RemovedKept(items, i);
    var j := IndexOf(items, u);
    if j >= 0 && j != i { KeysWithout(items, i, j); }
  }

  lemma MissKeepsMembers(items: Items, items': Items, t: Trace, e: Act, cfg: Config)
    requires MembersOK(items, t, cfg) && e.Missed? && cfg.max > 0
    requires forall u :: IndexOf(items', u) >= 0 <==> IndexOf(items, u) >= 0 && u != e.k
    ensures MembersOK(items', And(t, e), cfg)
  {
    forall u ensures IndexOf(items', u) >= 0 <==> Retained(And(t, e), u, cfg) { MissCrowdsNobody(t, e, u, cfg); }
  }

  lemma MissKeepsMisses(items: Items, t: Trace, clock: int, e: Act, cfg: Config)
    requires MembersOK(items, t, cfg) && MissesOK(t, clock, cfg) && e.Missed? && clock <= e.at && cfg.max > 0
    requires IndexOf(items, e.k) < 0 || RanOut(t, e.k, e.at, cfg.ttl)
    ensures MissesOK(And(t, e), e.at, cfg)
  {
    forall u | LatestPut(t, u).Some? && LastMissed(And(t, e), u) ensures Crowded(And(t, e), u, cfg) || RanOut(And(t, e), u, e.at, cfg.ttl) {
      MissCrowdsNobody(t, e, u, cfg);
    }
  }

  lemma AbsentKeeps(c: Cache, cfg: Config, k: Key, now: int)
    requires Inv(c, cfg) && c.clock <= now && cfg.max > 0 && IndexOf(c.items, k) < 0
    ensures Inv(Step(c, Getting(k, now), cfg), cfg)
  {
    var e := Missed(k, now);
    MissKeepsMembers(c.items, c.items, c.trace, e, cfg);
    MissKeepsMisses(c.items, c.trace, c.clock, e, cfg);
  }

  /** An entry found expired goes, and counts against nobody any more. */
  lemma ExpiredLeaves(items: Items, t: Trace, ttl: int, i: int, e: Act)
    requires ListOK(items, t, ttl) && 0 <= i < |items| && e == Missed(items[i].key, e.at) && items[i].expiresAt <= e.at
    ensures ListOK(RemoveAt(items, i), And(t, e), ttl) && RanOut(t, e.k, e.at, ttl)
  {
    var rest := RemoveAt(items, i);
    Without(items, i, e.k);
    forall j | 0 <= j < |rest|
      ensures LatestPut(And(t, e), rest[j].key) == Some((rest[j].payload, rest[j].expiresAt - ttl))
      ensures TouchedSince(And(t, e), rest[j].key, ttl) == Keys(rest[..j])
    {
      Was(items, i, j);
    }
  }

  lemma ExpiredKeeps(c: Cache, cfg: Config, k: Key, now: int)
    requires Inv(c, cfg) && c.clock <= now && cfg.max > 0
    requires IndexOf(c.items, k) >= 0 && now >= c.items[IndexOf(c.items, k)].expiresAt
    ensures Inv(Step(c, Getting(k, now), cfg), cfg)
  {
    var i, e := IndexOf(c.items, k), Missed(k, now);
    var rest := RemoveAt(c.items, i);
    forall u ensures IndexOf(rest, u) >= 0 <==> IndexOf(c.items, u) >= 0 && u != k { Without(c.items, i, u); }
    ExpiredLeaves(c.items, c.trace, cfg.ttl, i, e);
    MissKeepsMembers(c.items, rest, c.trace, e, cfg);
    MissKeepsMisses(c.items, c.trace, c.clock, e, cfg);
  }

  // ----- a store or a hit

  lemma KeysBehind(x: Item, rest: Items, j: int)
    requires 0 <= j <= |rest|
    ensures Keys(([x] + rest)[..j + 1]) == Keys(rest[..j]) + {x.key}
  {
    var all := [x] + rest;
    assert all[..j + 1] == [x] + rest[..j];
    forall k | k in Keys(rest[..j]) ensures k in Keys(all[..j + 1]) {
      var a :| 0 <= a < j && rest[..j][a].key == k;
      assert all[..j + 1][a + 1] == rest[a];
    }
    assert all[..j + 1][0] == x;
  }

  /** Entries in order, but for one of key k that is not among them. */
  ghost predicate OthersOK(rest: Items, t: Trace, ttl: int, k: Key) {
    && Distinct(rest) && HeldOK(rest, t, ttl)
    && (forall j :: 0 <= j < |rest| ==> rest[j].key != k && TouchedSince(t, rest[j].key, ttl) - {k} == Keys(rest[..j]))
  }

  lemma AllOthers(items: Items, t: Trace, ttl: int, k: Key)
    requires ListOK(items, t, ttl) && forall j :: 0 <= j < |items| ==> items[j].key != k
    ensures OthersOK(items, t, ttl, k)
  {
    forall j | 0 <= j < |items| ensures TouchedSince(t, items[j].key, ttl) - {k} == Keys(items[..j]) {
      assert k !in Keys(items[..j]);
    }
  }

  lemma AllButOne(items: Items, t: Trace, ttl: int, i: int)
    requires ListOK(items, t, ttl) && 0 <= i < |items|
    ensures OthersOK(RemoveAt(items, i), t, ttl, items[i].key)
  {
    var rest, k := RemoveAt(items, i), items[i].key;
    Without(items, i, k);
    forall j | 0 <= j < |rest|
      ensures rest[j].key != k && LatestPut(t, rest[j].key) == Some((rest[j].payload, rest[j].expiresAt - ttl))
      ensures TouchedSince(t, rest[j].key, ttl) - {k} == Keys(rest[..j])
    {
      Was(items, i, j);
    }
  }

  /** The entry touched goes to the front of the others. */
  lemma FrontKeeps(rest: Items, t: Trace, ttl: int, x: Item, e: Act)
    requires OthersOK(rest, t, ttl, x.key)
    requires !e.Missed? && e.k == x.key && LatestPut(And(t, e), x.key) == Some((x.payload, x.expiresAt - ttl))
    ensures ListOK([x] + rest, And(t, e), ttl)
  {
    var all := [x] + rest;
    forall j | 0 <= j < |all|
      ensures LatestPut(And(t, e), all[j].key) == Some((all[j].payload, all[j].expiresAt - ttl))
      ensures TouchedSince(And(t, e), all[j].key, ttl) == Keys(all[..j])
    {
      if j > 0 {
        assert all[j] == rest[j - 1];
        KeysBehind(x, rest, j - 1);
      }
    }
  }

  /** Others count at most as many against them as are ahead of them. */
  lemma TouchedCount(items: Items, t: Trace, ttl: int, j: int)
    requires ListOK(items, t, ttl) && 0 <= j < |items|
    ensures |TouchedSince(t, items[j].key, ttl)| == j
  {
    KeyCount(items[..j]);
  }

  /** Who stays when k is touched: k, and of the others those with room. */
  lemma TouchKeepsMembers(items: Items, items': Items, t: Trace, e: Act, cfg: Config)
    requires MembersOK(items, t, cfg) && !e.Missed? && cfg.max > 0 && LatestPut(And(t, e), e.k).Some? && IndexOf(items', e.k) >= 0
    requires forall u :: u != e.k ==> (IndexOf(items', u) >= 0 <==>
               IndexOf(items, u) >= 0 && |TouchedSince(And(t, e), u, cfg.ttl)| < cfg.max)
    ensures MembersOK(items', And(t, e), cfg)
  {
    forall u ensures IndexOf(items', u) >= 0 <==> Retained(And(t, e), u, cfg) { }
  }

  lemma TouchKeepsMisses(t: Trace, clock: int, e: Act, cfg: Config)
    requires MissesOK(t, clock, cfg) && !e.Missed? && clock <= e.at
    ensures MissesOK(And(t, e), e.at, cfg)
  {
    forall u | LatestPut(And(t, e), u).Some? && LastMissed(And(t, e), u)
      ensures Crowded(And(t, e), u, cfg) || RanOut(And(t, e), u, e.at, cfg.ttl)
    {
      assert u != e.k;
    }
  }

  /** Keys keep their places in the list but for the one touched. */
  lemma FrontMembers(items: Items, x: Item, u: Key)
    requires Distinct(items)
    ensures IndexOf(FrontLoaded(items, x), u) >= 0 <==> u == x.key || IndexOf(items, u) >= 0
  {
    var all, i := FrontLoaded(items, x), IndexOf(items, x.key);
    assert all[0] == x;
    var rest := if i < 0 then items else RemoveAt(items, i);
    if i >= 0 { Without(items, i, u); }
    if u != x.key {
      if IndexOf(rest, u) >= 0 { assert all[IndexOf(rest, u) + 1].key == u; }
      if IndexOf(all, u) >= 0 { assert all[IndexOf(all, u)] == rest[IndexOf(all, u) - 1]; }
    }
  }

  lemma FrontLoadedKeeps(items: Items, t: Trace, ttl: int, x: Item, e: Act)
    requires ListOK(items, t, ttl)
    requires !e.Missed? && e.k == x.key && LatestPut(And(t, e), x.key) == Some((x.payload, x.expiresAt - ttl))
    ensures ListOK(FrontLoaded(items, x), And(t, e), ttl)
  {
    var i := IndexOf(items, x.key);
    if i < 0 { AllOthers(items, t, ttl, x.key); } else { AllButOne(items, t, ttl, i); }
    FrontKeeps(if i < 0 then items else RemoveAt(items, i), t, ttl, x, e);
  }

  lemma CutKeeps(all: Items, t: Trace, ttl: int, n: nat)
    requires ListOK(all, t, ttl) && n <= |all|
    ensures ListOK(all[..n], t, ttl)
  {
    forall j | 0 <= j < n ensures TouchedSince(t, all[..n][j].key, ttl) == Keys(all[..n][..j]) { assert all[..n][..j] == all[..j]; }
  }

  lemma CutMembers(all: Items, cut: Items, t: Trace, ttl: int, u: Key)
    requires ListOK(all, t, ttl) && cut <= all
    ensures IndexOf(cut, u) >= 0 <==> IndexOf(all, u) >= 0 && |TouchedSince(t, u, ttl)| < |cut|
  {
    var j, j' := IndexOf(all, u), IndexOf(cut, u);
    if j' >= 0 { assert all[j'].key == u; }
    if j >= 0 {
      TouchedCount(all, t, ttl, j);
      if j < |cut| { assert cut[j].key == u; }
    }
  }

  /** Storing or hitting k, in a list kept to its bound. */
  lemma TouchKeeps(c: Cache, cfg: Config, x: Item, e: Act)
    requires Inv(c, cfg) && c.clock <= e.at && cfg.max > 0
    requires !e.Missed? && e.k == x.key && LatestPut(And(c.trace, e), x.key) == Some((x.payload, x.expiresAt - cfg.ttl))
    ensures var all := FrontLoaded(c.items, x);
            Inv(Cache(if |all| > cfg.max then all[..cfg.max] else all, e.at, And(c.trace, e)), cfg)
  {
    var all, t' := FrontLoaded(c.items, x), And(c.trace, e);
    var items' := if |all| > cfg.max then all[..cfg.max] else all;
    FrontLoadedKeeps(c.items, c.trace, cfg.ttl, x, e);
    CutKeeps(all, t', cfg.ttl, |items'|);
    assert items' == all[..|items'|];
    forall u | u != e.k
      ensures IndexOf(items', u) >= 0 <==> IndexOf(c.items, u) >= 0 && |TouchedSince(t', u, cfg.ttl)| < cfg.max
    {
      FrontMembers(c.items, x, u);
      CutMembers(all, items', t', cfg.ttl, u);
      if IndexOf(all, u) >= 0 { TouchedCount(all, t', cfg.ttl, IndexOf(all, u)); }
    }
    FrontMembers(c.items, x, x.key);
    CutMembers(all, items', t', cfg.ttl, x.key);
    assert |TouchedSince(t', x.key, cfg.ttl)| == 0;
    TouchKeepsMembers(c.items, items', c.trace, e, cfg);
    TouchKeepsMisses(c.trace, c.clock, e, cfg);
  }

  lemma GetKeeps(c: Cache, cfg: Config, k: Key, now: int)
    requires Inv(c, cfg) && c.clock <= now && cfg.max > 0
    ensures Inv(Step(c, Getting(k, now), cfg), cfg)
  {
    var i := IndexOf(c.items, k);
    if i < 0 {
      AbsentKeeps(c, cfg, k, now);
    } else if now >= c.items[i].expiresAt {
      ExpiredKeeps(c, cfg, k, now);
    } else {
      TouchKeeps(c, cfg, c.items[i], Hit(k, c.items[i].payload, now));
      assert FrontLoaded(c.items, c.items[i]) == [c.items[i]] + RemoveAt(c.items, i);
    }
  }

  lemma PutKeeps(c: Cache, cfg: Config, k: Key, p: Payload, now: int)
    requires Inv(c, cfg) && c.clock <= now && cfg.max > 0
    ensures Inv(Step(c, Putting(k, p, now), cfg), cfg)
  {
    TouchKeeps(c, cfg, Item(k, p, now + cfg.ttl), Stored(k, p, now));
  }

  lemma StepKeeps(c: Cache, op: Op, cfg: Config)
    requires Inv(c, cfg) && c.clock <= op.now && cfg.max > 0
    ensures Inv(Step(c, op, cfg), cfg)
  {
    match op
    case Getting(k, now) => GetKeeps(c, cfg, k, now);
    case Putting(k, p, now) => PutKeeps(c, cfg, k, p, now);
  }

  lemma {:induction false} RunKeeps(c: Cache, ops: seq<Op>, cfg: Config)
    requires Inv(c, cfg) && Timely(c.clock, ops) && cfg.max > 0
    ensures Inv(Run(c, ops, cfg), cfg)
    decreases ops
  {
    if ops != [] {
      StepKeeps(c, ops[0], cfg);
      RunKeeps(Step(c, ops[0], cfg), ops[1..], cfg);
    }
  }

  // ----- what a caller can count on, from an empty cache, after any operations

  /** A Get is a hit if and only if the latest Put under that tenant, model and hash is less than TTL
      old and at no moment since its last use did MaxEntries other keys count against it; the hit is
      that Put's payload. */
  lemma Retention(start: int, ops: seq<Op>, cfg: Config, k: Key, now: int)
    requires Timely(start, ops) && cfg.max > 0
    requires Run(Cache([], start, Empty), ops, cfg).clock <= now
    ensures var c := Run(Cache([], start, Empty), ops, cfg);
            var put := LatestPut(c.trace, k);
            Get(c.items, k, now).1 ==
              if put.Some? && now < put.value.1 + cfg.ttl && !Crowded(c.trace, k, cfg) then Some(put.value.0) else None
  {
    RunKeeps(Cache([], start, Empty), ops, cfg);
  }

  /** What is held, told from what happened: keys stored, neither crowded out nor missed since, each
      once, at most MaxEntries, the latest touched first. */
  lemma HeldExactly(start: int, ops: seq<Op>, cfg: Config)
    requires Timely(start, ops) && cfg.max > 0
    ensures var c := Run(Cache([], start, Empty), ops, cfg);
            && Distinct(c.items) && |c.items| <= cfg.max
            && (forall k :: k in Keys(c.items) <==> Retained(c.trace, k, cfg))
            && (forall i :: 0 <= i < |c.items| ==> TouchedSince(c.trace, c.items[i].key, cfg.ttl) == Keys(c.items[..i]))
  {
    RunKeeps(Cache([], start, Empty), ops, cfg);
    var c := Run(Cache([], start, Empty), ops, cfg);
    forall k ensures k in Keys(c.items) <==> IndexOf(c.items, k) >= 0 { }
  }

  /** Once asked for after its time an entry is gone: what is held under a key just asked for is
      less than TTL old. */
  lemma GoneOnceFound(start: int, ops: seq<Op>, cfg: Config, k: Key, now: int)
    requires Timely(start, ops) && cfg.max > 0
    requires Run(Cache([], start, Empty), ops, cfg).clock <= now
    ensures var c := Run(Cache([], start, Empty), ops, cfg);
            var c' := Step(c, Getting(k, now), cfg);
            k in Keys(c'.items) ==> LatestPut(c.trace, k).Some? && now < LatestPut(c.trace, k).value.1 + cfg.ttl
  {
    RunKeeps(Cache([], start, Empty), ops, cfg);
    var c := Run(Cache([], start, Empty), ops, cfg);
    var c' := Step(c, Getting(k, now), cfg);
    GetKeeps(c, cfg, k, now);
    assert k in Keys(c'.items) ==> IndexOf(c'.items, k) >= 0;
  }
}
