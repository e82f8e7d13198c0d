/** internal/router/orchestrator.go as it is written: two nested loops over the order, reporting
    to the tracker as they go. */
module Orchestrator {
  import opened Common
  import opened Policy
  import H = HealthModel
  import opened Health
  import opened SelectorSpec
  import opened Selector
  import opened ChainSpec
  import R = RoundRobinSpec
  import opened StreamSpec

  datatype NewError = EmptyChain | NoTracker | NoSelector | DuplicateProvider(name: string)

  /** Where the loop goes next: over, the same provider again, or the one behind it. */
  datatype Turn = Over(r: Result<string, RouteError>) | Again | Onwards

  /** What a failed call leads to; room says a retry would not strand anybody. */
  function Verdict(e: CallError, gone: bool, room: bool): Turn {
    if gone && ClassOf(e) == Canceled then Turn.Over(Err(FromUpstream(e)))
    else
      match ClassDisposition(ClassOf(e))
      case Fail => Turn.Over(Err(FromUpstream(e)))
      case Retry => if room then Again else Onwards
      case Failover => Onwards
  }

  class Router {
    const names: seq<string>
    const health: Tracker
    const sel: ChainSelector
    const opts: H.Options
    var attempts: seq<Attempt>

    constructor (names: seq<string>, health: Tracker, sel: ChainSelector, opts: H.Options)
      ensures this.names == names && this.health == health && this.sel == sel && attempts == []
      ensures this.opts == H.WithDefaults(opts)
    {
      this.names, this.health, this.sel, this.opts := names, health, sel, H.WithDefaults(opts);
      attempts := [];
    }

    method RecordAttempt(a: Attempt)
      modifies `attempts
      ensures attempts == old(attempts) + [a]
    {
      attempts := attempts + [a];
    }

    ghost predicate Valid()
      reads this, health, sel
    {
      health.Valid() && sel.calls < R.WRAP && H.Sane(opts)
    }

    /** One upstream call: made, noted, and reported if it says something about the provider. */
    method Call(w: World, k: nat, p: string, streaming: bool, clock: int) returns (r: Result<string, CallError>)
      requires Valid()
      modifies `attempts, health`state, health.Records()
      ensures Valid() && fresh(health.Records() - old(health.Records()))
      ensures r == w.answer(k, p)
      ensures var a := Attempt(p, if r.Ok? then None else Some(r.error));
              && attempts == old(attempts) + [a]
              && health.Model() == ReportOne(old(health.Model()), health.opts, a, streaming, TimeOr(w.time(k), clock))
    {
      r := w.answer(k, p);
      if r.Ok? {
        if !streaming {
          health.RecordSuccess(p, 0);
        }
        RecordAttempt(Attempt(p, None));
        return;
      }
      RecordAttempt(Attempt(p, Some(r.error)));
      if CountsAgainstHealth(ClassOf(r.error)) {
        health.RecordFailure(p, ClassOf(r.error), 0, w.time(k), clock);
      }
    }

    /** Where a request is: the rest of the walk is still owed, and the tracker has heard of every
        attempt so far. */
    ghost predicate Underway(whole: Walked, w: World, order: seq<string>, used: nat, last: Option<CallError>,
                             b: Board, streaming: bool, clock: int)
      reads this, health, health.Records()
    {
      && |attempts| == used && Onward(whole, attempts, w, Known(), Max(), order, used, last)
      && health.Model() == Reported(b, health.opts, attempts, streaming, w, clock)
    }

    ghost predicate Over(whole: Walked, r: Result<string, RouteError>, w: World, b: Board, streaming: bool, clock: int)
      reads this, health, health.Records()
    {
      whole == (r, attempts) && health.Model() == Reported(b, health.opts, attempts, streaming, w, clock)
    }

    function Known(): set<string> { set p | p in names }

    ghost function Max(): nat { if opts.maxAttempts > 0 then opts.maxAttempts else 0 }

    /** One turn of the inner loop. order is the provider at hand and those behind it. */
    method TryOnce(w: World, order: seq<string>, used: nat, last: Option<CallError>, streaming: bool, clock: int,
                   ghost whole: Walked, ghost b: Board)
      returns (turn: Turn, used': nat, last': Option<CallError>)
      requires Valid() && order != [] && order[0] in Known()
      requires Underway(whole, w, order, used, last, b, streaming, clock)
      modifies `attempts, health`state, health.Records()
      ensures Valid() && fresh(health.Records() - old(health.Records()))
      ensures turn.Again? ==> used < used' < Max() && Underway(whole, w, order, used', last', b, streaming, clock)
      ensures turn.Onwards? ==> Underway(whole, w, order[1..], used', last', b, streaming, clock)
      ensures turn.Over? ==> Over(whole, turn.r, w, b, streaming, clock)
    {
      used', last' := used, last;
      OnwardStep(whole, attempts, w, Known(), Max(), order, used, last);
      if used >= opts.maxAttempts {
        return Turn.Over(Err(Exhausted(last))), used', last';
      }
      if w.ctx(used) != Context.Live {
        return Turn.Over(Err(ContextError(w.ctx(used)))), used', last';
      }
      var r := Call(w, used, order[0], streaming, clock);
      assert attempts[..used] == old(attempts);
      used' := used + 1;
      if r.Ok? {
        return Turn.Over(Ok(r.value)), used', last';
      }
      last' := Some(r.error);
      turn := Verdict(r.error, w.ctx(used') != Context.Live, used' + (|order| - 1) < opts.maxAttempts);
    }

    /** The inner loop: one provider, until it answers, is given up on, or the request is over. */
    method TryProvider(w: World, order: seq<string>, used: nat, last: Option<CallError>, streaming: bool, clock: int,
                       ghost whole: Walked, ghost b: Board)
      returns (over: Option<Result<string, RouteError>>, used': nat, last': Option<CallError>)
      requires Valid() && order != [] && order[0] in Known()
      requires Underway(whole, w, order, used, last, b, streaming, clock)
      modifies `attempts, health`state, health.Records()
      ensures Valid() && fresh(health.Records() - old(health.Records()))
      ensures over.None? ==> Underway(whole, w, order[1..], used', last', b, streaming, clock)
      ensures over.Some? ==> Over(whole, over.value, w, b, streaming, clock)
    {
      used', last' := used, last;
      while true
        invariant Valid() && fresh(health.Records() - old(health.Records()))
        invariant Underway(whole, w, order, used', last', b, streaming, clock)
        decreases Max() - used'
      {
        var turn;
        turn, used', last' := TryOnce(w, order, used', last', streaming, clock, whole, b);
        if turn.Over? {
          return Some(turn.r), used', last';
        }
        if turn.Onwards? {
          return None, used', last';
        }
      }
    }

    /** runChain: the order is taken once, and then walked. */
    method RunChain(w: World, streaming: bool, now: int, clock: int) returns (r: Result<string, RouteError>)
      requires Valid()
      modifies `attempts, health`state, health.Records(), sel`calls
      ensures Valid() && fresh(health.Records() - old(health.Records()))
      ensures var (b, order, calls) := Ordered(sel.strategy, old(health.Model()), health.opts, names, TimeOr(now, clock), old(sel.calls));
              && sel.calls == calls
              && (r, attempts) == (if order == [] then (Err(NoHealthyProvider), []) else Walk(w, Known(), Max(), order, 0, None))
              && health.Model() == Reported(b, health.opts, attempts, streaming, w, clock)
    {
      attempts := [];
      var order := sel.Order(names, health, now, clock);
      if order == [] {
        return Err(NoHealthyProvider);
      }
      r := WalkChain(w, order, streaming, clock);
    }

    method WalkChain(w: World, order: seq<string>, streaming: bool, clock: int) returns (r: Result<string, RouteError>)
      requires Valid() && attempts == []
      modifies `attempts, health`state, health.Records()
      ensures Valid() && fresh(health.Records() - old(health.Records()))
      ensures (r, attempts) == Walk(w, Known(), Max(), order, 0, None)
      ensures health.Model() == Reported(old(health.Model()), health.opts, attempts, streaming, w, clock)
    {
      ghost var whole, b := Walk(w, Known(), Max(), order, 0, None), health.Model();
      var left, used, last := order, 0, None;
      assert attempts + whole.1 == whole.1;
      while left != []
        invariant Valid() && fresh(health.Records() - old(health.Records()))
        invariant Underway(whole, w, left, used, last, b, streaming, clock)
        decreases |left|
      {
        if left[0] !in names {
          OnwardStep(whole, attempts, w, Known(), Max(), left, used, last);
          left := left[1..];
          continue;
        }
        var over;
        over, used, last := TryProvider(w, left, used, last, streaming, clock, whole, b);
        if over.Some? {
          return over.value;
        }
        left := left[1..];
      }
      assert attempts + [] == attempts;
      r := Err(Exhausted(last));
    }
  }

  /** New: a chain needs a provider, a tracker and a selector, and may not name anyone twice. */
  method New(chain: seq<string>, health: Tracker?, sel: ChainSelector?, opts: H.Options) returns (r: Router?, err: Option<NewError>)
    ensures r == null <==> err.Some?
    ensures r != null <==> chain != [] && health != null && sel != null && Distinct(chain)
    ensures r != null ==> r.names == chain && r.health == health && r.sel == sel && r.opts == H.WithDefaults(opts)
    ensures err.Some? && err.value.DuplicateProvider? ==> exists i, j :: 0 <= i < j < |chain| && chain[i] == chain[j] == err.value.name
  {
    if chain == [] {
      return null, Some(EmptyChain);
    }
    if health == null {
      return null, Some(NoTracker);
    }
    if sel == null {
      return null, Some(NoSelector);
    }
    var i := 0;
    while i < |chain|
      invariant i <= |chain| && Distinct(chain[..i])
    {
      if chain[i] in chain[..i] {
        var j :| 0 <= j < i && chain[j] == chain[i];
        return null, Some(DuplicateProvider(chain[i]));
      }
      assert chain[..i + 1] == chain[..i] + [chain[i]];
      i := i + 1;
    }
    assert chain[..i] == chain;
    r := new Router(chain, health, sel, opts);
    err := None;
  }

  /** A stream that reports its provider healthy at its first chunk of data, once. */
  class TimedReader {
    const provider: string
    const health: Tracker
    const start: int
    var recorded: bool

    constructor (provider: string, health: Tracker, start: int)
      ensures this.provider == provider && this.health == health && this.start == start && !recorded
    {
      this.provider, this.health, this.start, recorded := provider, health, start, false;
    }

    /** Passes on what the inner reader gave at time now. */
    method Recv(inner: Result<Chunk, Term>, now: int) returns (r: Result<Chunk, Term>)
      requires health.Valid()
      modifies `recorded, health`state, health.Records()
      ensures health.Valid() && fresh(health.Records() - old(health.Records())) && r == inner
      ensures var first := !old(recorded) && inner.Ok? && inner.value != Keepalive;
              && recorded == (old(recorded) || first)
              && health.Model() == if first then old(health.Model())[provider := H.RecordSuccess(Of(old(health.Model()), provider), now - start)]
                                   else old(health.Model())
    {
      r := inner;
      if inner.Ok? && !recorded && inner.value != Keepalive {
        recorded := true;
        health.RecordSuccess(provider, now - start);
      }
    }
  }
}
