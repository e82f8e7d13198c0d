/** internal/router/selector.go as it is written: loops over a chain, asking a tracker. */
module Selector {
  import opened Common
  import H = HealthModel
  import opened Health
  import opened SelectorSpec
  import R = RoundRobinSpec

  datatype Strategy = Priority | LeastLatencyFirst | RoundRobin

  /** What a strategy makes of a chain: the board after asking, the order, and the counter. */
  function Ordered(s: Strategy, b: Board, o: H.Options, chain: seq<string>, now: int, calls: nat): (Board, seq<string>, nat) {
    var (b', avail) := AvailableFrom(b, o, chain, now);
    match s
    case Priority => (b', avail, calls)
    case LeastLatencyFirst => (b', LeastLatency(b', avail), calls)
    case RoundRobin => if avail == [] then (b', avail, calls) else (b', R.Rotated(avail, calls), R.Next(calls))
  }

  /** Whatever the strategy, the order is the available providers and nobody else, each once;
      under round robin as long as the counter does not wrap inside the call. */
  lemma OrderIsPermutation(s: Strategy, b: Board, o: H.Options, chain: seq<string>, now: int, calls: nat)
    requires Distinct(chain) && calls < R.WRAP && |chain| <= R.WRAP
    ensures var avail := Keep(chain, p => AvailableOn(b, o, p, now).1);
            multiset(Ordered(s, b, o, chain, now, calls).1) == multiset(avail)
            <==> !(s == RoundRobin && R.Torn(calls, |avail|))
  {
    AvailableIsKeep(b, o, chain, now);
    var (b', avail) := AvailableFrom(b, o, chain, now);
    KeepIsSubset(chain, p => AvailableOn(b, o, p, now).1);
    KeepNoLonger(chain, p => AvailableOn(b, o, p, now).1);
    LeastLatencyOrders(b', avail);
    if s == RoundRobin && avail != [] { R.PermutationUnlessTorn(avail, calls); }
  }

  /** Who may be tried now, in chain order. */
  function AvailableIn(b: Board, o: H.Options, chain: seq<string>, now: int): seq<string> {
    Keep(chain, p => AvailableOn(b, o, p, now).1)
  }

  /** Priority: the chain as configured, and no turn spent. */
  lemma PriorityKeepsChain(b: Board, o: H.Options, chain: seq<string>, now: int, calls: nat)
    requires Distinct(chain)
    ensures var (_, out, calls') := Ordered(Priority, b, o, chain, now, calls);
            out == AvailableIn(b, o, chain, now) && calls' == calls
  {
    AvailableIsKeep(b, o, chain, now);
  }

  /** Least latency: those without an average first, then the faster before the slower. */
  lemma FasterFirst(b: Board, o: H.Options, chain: seq<string>, now: int, calls: nat)
    requires Distinct(chain)
    ensures var (b', out, calls') := Ordered(LeastLatencyFirst, b, o, chain, now, calls);
            && multiset(out) == multiset(AvailableIn(b, o, chain, now)) && calls' == calls
            && forall i, j :: 0 <= i < j < |out| && H.Latency(Of(b', out[i])).Some? ==>
                 H.Latency(Of(b', out[j])).Some? && H.Latency(Of(b', out[i])).value <= H.Latency(Of(b', out[j])).value
  {
    AvailableIsKeep(b, o, chain, now);
    var (b', avail) := AvailableFrom(b, o, chain, now);
    LeastLatencyOrders(b', avail);
  }

  /** Round robin: each leads in turn with the others behind in chain order, and a turn is spent
      exactly when there is somebody to lead. */
  lemma TurnsAreTaken(b: Board, o: H.Options, chain: seq<string>, now: int, calls: nat)
    requires Distinct(chain) && calls < R.WRAP
    ensures var avail := AvailableIn(b, o, chain, now);
            var (_, out, calls') := Ordered(RoundRobin, b, o, chain, now, calls);
            if avail == [] then out == [] && calls' == calls
            else
              var lead := calls % |avail|;
              (!R.Torn(calls, |avail|) ==> out == avail[lead..] + avail[..lead]) && calls' == (calls + 1) % R.WRAP
  {
    AvailableIsKeep(b, o, chain, now);
    Leading(AvailableIn(b, o, chain, now), calls);
  }

  lemma Leading(avail: seq<string>, calls: nat)
    requires calls < R.WRAP
    ensures avail != [] && !R.Torn(calls, |avail|) ==>
              var lead := calls % |avail|; R.Rotated(avail, calls) == avail[lead..] + avail[..lead]
  {
    if avail != [] && !R.Torn(calls, |avail|) { R.RotatedIsRotation(avail, calls); }
  }

  lemma {:induction false} KeepNoLonger(chain: seq<string>, keep: string -> bool)
    ensures |Keep(chain, keep)| <= |chain|
  {
    if chain != [] { KeepNoLonger(chain[1..], keep); }
  }

  class ChainSelector {
    const strategy: Strategy
    var calls: nat

    constructor (strategy: Strategy)
      ensures this.strategy == strategy && calls == 0
    {
      this.strategy, calls := strategy, 0;
    }

    /** Best first; an empty answer means nobody may be tried. Without a tracker nobody is
        excluded and nobody is sampled. */
    method Order(chain: seq<string>, h: Tracker?, now: int, clock: int) returns (out: seq<string>)
      requires (h != null ==> h.Valid()) && calls < R.WRAP
      modifies `calls, Asked(h)
      ensures h != null ==> h.Valid() && unchanged(h)
      ensures h != null ==>
                (h.Model(), out, calls) == Ordered(strategy, old(h.Model()), h.opts, chain, TimeOr(now, clock), old(calls))
      ensures h == null ==> (out, calls) == Unguided(strategy, chain, old(calls))
    {
      out := AvailableNow(chain, h, now, clock);
      match strategy {
        case Priority =>
        case LeastLatencyFirst =>
          out := ByLatency(out, h);
        case RoundRobin =>
          out := Rotate(out);
      }
    }

    /** Takes a turn, unless there is nobody to lead. */
    method Rotate(avail: seq<string>) returns (out: seq<string>)
      requires calls < R.WRAP
      modifies `calls
      ensures out == if avail == [] then avail else R.Rotated(avail, old(calls))
      ensures calls == if avail == [] then old(calls) else R.Next(old(calls))
    {
      if avail == [] {
        return avail;
      }
      var start := calls;
      calls := (calls + 1) % R.WRAP;
      out := [];
      var i := 0;
      while i < |avail|
        invariant |out| == i <= |avail|
        invariant forall j :: 0 <= j < i ==> out[j] == R.Rotated(avail, start)[j]
      {
        out := out + [avail[(start + i) % R.WRAP % |avail|]];
        i := i + 1;
      }
    }
  }

  /** The records asking may write. */
  ghost function Asked(h: Tracker?): set<ProviderHealth>
    reads h
  {
    if h != null then h.Records() else {}
  }

  /** A route without health tracking. */
  function Unguided(s: Strategy, chain: seq<string>, calls: nat): (seq<string>, nat) {
    match s
    case Priority => (chain, calls)
    case LeastLatencyFirst => (LeastLatency(map[], chain), calls)
    case RoundRobin => if chain == [] then (chain, calls) else (R.Rotated(chain, calls), R.Next(calls))
  }

  /** The answers so far, with what asking the rest would add, are the whole answer. */
  predicate AskedSoFar(whole: (Board, seq<string>), b: Board, o: H.Options, left: seq<string>, now: int, out: seq<string>) {
    var rest := AvailableFrom(b, o, left, now);
    whole == (rest.0, out + rest.1)
  }

  lemma AskStep(whole: (Board, seq<string>), b: Board, o: H.Options, left: seq<string>, now: int, out: seq<string>)
    requires left != [] && AskedSoFar(whole, b, o, left, now, out)
    ensures var (b', ok) := AvailableOn(b, o, left[0], now);
            AskedSoFar(whole, b', o, left[1..], now, if ok then out + [left[0]] else out)
  {
    var (b', ok) := AvailableOn(b, o, left[0], now);
    var rest := AvailableFrom(b', o, left[1..], now);
    assert out + ([left[0]] + rest.1) == (out + [left[0]]) + rest.1;
    assert out + ([] + rest.1) == out + rest.1;
  }

  method AvailableNow(chain: seq<string>, h: Tracker?, now: int, clock: int) returns (out: seq<string>)
    requires h != null ==> h.Valid()
    modifies Asked(h)
    ensures h != null ==> h.Valid() && unchanged(h)
    ensures h != null ==> (h.Model(), out) == AvailableFrom(old(h.Model()), h.opts, chain, TimeOr(now, clock))
    ensures h == null ==> out == chain
  {
    out := [];
    var left := chain;
    ghost var at := TimeOr(now, clock);
    ghost var whole := if h != null then AvailableFrom(h.Model(), h.opts, chain, at) else (map[], []);
    assert [] + whole.1 == whole.1;
    while left != []
      invariant h != null ==> h.Valid() && unchanged(h)
      invariant h != null ==> AskedSoFar(whole, h.Model(), h.opts, left, at, out)
      invariant h == null ==> out + left == chain
      decreases |left|
    {
      var ok := true;
      if h != null {
        AskStep(whole, h.Model(), h.opts, left, at, out);
        ok := h.Available(left[0], now, clock);
      }
      if ok {
        out := out + [left[0]];
      }
      left := left[1..];
    }
    assert out + [] == out;
  }

  /** Every latency is read once, before the sort. */
  method ByLatency(avail: seq<string>, h: Tracker?) returns (out: seq<string>)
    requires h != null ==> h.Valid()
    ensures out == LeastLatency(if h != null then h.Model() else map[], avail)
  {
    ghost var b: Board := if h != null then h.Model() else map[];
    var ranks: seq<Rank> := [];
    var i := 0;
    while i < |avail|
      invariant |ranks| == i <= |avail|
      invariant forall j :: 0 <= j < i ==> ranks[j] == Ranks(b, avail)[j]
    {
      var ttft: Option<int> := None;
      if h != null {
        ttft := h.Latency(avail[i]);
      }
      ranks := ranks + [Rank(avail[i], ttft)];
      i := i + 1;
    }
    assert ranks == Ranks(b, avail) && b == if h != null then h.Model() else map[];
    out := Names(StableSort(ranks));
  }
}
