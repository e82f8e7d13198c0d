/** The attempt loop of internal/router/orchestrator.go as a function of what the world answers,
    and what it promises a caller. */
module ChainSpec {
  import opened Common
  import opened Policy
  import H = HealthModel
  import opened Health
  import opened SelectorSpec

  /** An error crossing a provider boundary. */
  datatype CallError = Classed(c: ErrorClass, message: string) | ContextCanceled | DeadlineExceeded | Other(message: string)

  function ClassOf(e: CallError): ErrorClass {
    match e
    case Classed(c, _) => c
    case ContextCanceled => Canceled
    case DeadlineExceeded => Timeout
    case Other(_) => Internal
  }

  /** What runChain itself has to say, or the upstream error it passes on. */
  datatype RouteError = NoHealthyProvider | NoAttemptMade | CanceledFirst | DeadlineFirst | FromUpstream(e: CallError)

  datatype Context = Live | Canceled_ | Expired

  /** The world: what call number k to a provider answers, the wait that answer names (which the
      error has no room for), how the context stands before it, and the clock behind it. */
  datatype World = World(answer: (nat, string) -> Result<string, CallError>, wait: (nat, string) -> int,
                         ctx: nat -> Context, time: nat -> int)

  datatype Attempt = Attempt(provider: string, err: Option<CallError>)

  type Walked = (Result<string, RouteError>, seq<Attempt>)

  function Exhausted(last: Option<CallError>): RouteError {
    if last.Some? then FromUpstream(last.value) else NoAttemptMade
  }

  function ContextError(c: Context): RouteError
    requires c != Live
  {
    if c == Expired then DeadlineFirst else CanceledFirst
  }

  function With(a: Attempt, rest: Walked): Walked { (rest.0, [a] + rest.1) }

  /** From call number used on, with order the provider at hand and those behind it. */
  function Walk(w: World, known: set<string>, max: nat, order: seq<string>, used: nat, last: Option<CallError>): Walked
    decreases if used < max then max - used else 0, |order|
  {
    if order == [] then (Err(Exhausted(last)), [])
    else if order[0] !in known then Walk(w, known, max, order[1..], used, last)
    else if used >= max then (Err(Exhausted(last)), [])
    else if w.ctx(used) != Live then (Err(ContextError(w.ctx(used))), [])
    else
      var p := order[0];
      match w.answer(used, p)
      case Ok(v) => (Ok(v), [Attempt(p, None)])
      case Err(e) =>
        With(Attempt(p, Some(e)),
             match ClassDisposition(ClassOf(e))
             case Fail => (Err(FromUpstream(e)), [])
             case Retry => Walk(w, known, max, if used + |order| < max then order else order[1..], used + 1, Some(e))
             case Failover => Walk(w, known, max, order[1..], used + 1, Some(e)))
  }

  /** sofar, with what the walk still adds, is the whole of it. */
  predicate Onward(whole: Walked, sofar: seq<Attempt>, w: World, known: set<string>, max: nat, order: seq<string>,
                   used: nat, last: Option<CallError>)
  {
    var rest := Walk(w, known, max, order, used, last);
    whole == (rest.0, sofar + rest.1)
  }

  /** One turn of the loop, whichever way it goes. */
  lemma OnwardStep(whole: Walked, sofar: seq<Attempt>, w: World, known: set<string>, max: nat, order: seq<string>,
                   used: nat, last: Option<CallError>)
    requires order != [] && Onward(whole, sofar, w, known, max, order, used, last)
    ensures if order[0] !in known then Onward(whole, sofar, w, known, max, order[1..], used, last)
            else if used >= max then whole == (Err(Exhausted(last)), sofar)
            else if w.ctx(used) != Live then whole == (Err(ContextError(w.ctx(used))), sofar)
            else
              match w.answer(used, order[0])
              case Ok(v) => whole == (Ok(v), sofar + [Attempt(order[0], None)])
              case Err(e) =>
                var sofar' := sofar + [Attempt(order[0], Some(e))];
                match ClassDisposition(ClassOf(e))
                case Fail => whole == (Err(FromUpstream(e)), sofar')
                case Retry => Onward(whole, sofar', w, known, max, if used + |order| < max then order else order[1..], used + 1, Some(e))
                case Failover => Onward(whole, sofar', w, known, max, order[1..], used + 1, Some(e))
  {
    if order[0] in known {
      assert sofar + [] == sofar;
      if used < max && w.ctx(used) == Live && w.answer(used, order[0]).Err? {
        var e := w.answer(used, order[0]).error;
        var a := Attempt(order[0], Some(e));
        var again := if ClassDisposition(ClassOf(e)).Retry? && used + |order| < max then order else order[1..];
        var rest := Walk(w, known, max, again, used + 1, Some(e)).1;
        assert (sofar + [a]) + rest == sofar + ([a] + rest);
        assert sofar + ([a] + []) == sofar + [a];
      }
    }
  }

  // ----- bounds

  lemma {:induction false} AttemptBound(w: World, known: set<string>, max: nat, order: seq<string>, used: nat, last: Option<CallError>)
    requires used <= max
    ensures |Walk(w, known, max, order, used, last).1| <= max - used
    decreases max - used, |order|
  {
    if order != [] && order[0] !in known {
      AttemptBound(w, known, max, order[1..], used, last);
    } else if order != [] && used < max && w.ctx(used) == Live && w.answer(used, order[0]).Err? {
      var e := w.answer(used, order[0]).error;
      AttemptBound(w, known, max, order, used + 1, Some(e));
      AttemptBound(w, known, max, order[1..], used + 1, Some(e));
    }
  }

  ghost predicate AllLive(w: World) { forall k: nat :: w.ctx(k) == Live }

  predicate AllKnown(order: seq<string>, known: set<string>) { forall p :: p in order ==> p in known }

  /** A payload every provider would reject alike, or a caller who hung up. */
  predicate Hopeless(e: CallError) {
    match e
    case Classed(c, _) => c == InvalidRequest || c == Canceled
    case ContextCanceled => true
    case _ => false
  }

  /** A fault that may be gone the next time the same provider is asked. */
  predicate Passing(e: CallError) {
    match e
    case Classed(c, _) => c == Upstream || c == Timeout
    case DeadlineExceeded => true
    case _ => false
  }

  /** Neither an answer nor an error that every provider would repeat. */
  predicate Undecided(a: Attempt) { a.err.Some? && !Hopeless(a.err.value) }

  predicate Tried(atts: seq<Attempt>, p: string) { exists k :: 0 <= k < |atts| && atts[k].provider == p }

  lemma TriedBehind(a: Attempt, atts: seq<Attempt>, p: string)
    ensures Tried([a] + atts, p) <==> a.provider == p || Tried(atts, p)
  {
    var all := [a] + atts;
    if Tried(atts, p) {
      var k :| 0 <= k < |atts| && atts[k].provider == p;
      assert all[k + 1].provider == p;
    }
    if a.provider == p { assert all[0].provider == p; }
    if k :| 0 < k < |all| && all[k].provider == p { assert atts[k - 1].provider == p; }
  }

  /** One attempt is held back for every provider still untried: while the context is live, and
      unless something settles the request, each of the first max providers is called. */
  lemma {:induction false} NobodyStarves(w: World, known: set<string>, max: nat, order: seq<string>, used: nat,
                                         last: Option<CallError>, j: nat)
    requires AllLive(w) && AllKnown(order, known) && used <= max && j < |order| && used + j < max
    requires forall k :: 0 <= k < |Walk(w, known, max, order, used, last).1| ==>
               Undecided(Walk(w, known, max, order, used, last).1[k])
    ensures Tried(Walk(w, known, max, order, used, last).1, order[j])
    decreases max - used, |order|
  {
    var atts := Walk(w, known, max, order, used, last).1;
    assert order[0] in order;
    assert atts != [] && Undecided(atts[0]);
    var e := w.answer(used, order[0]).error;
    var again := ClassDisposition(ClassOf(e)).Retry? && used + |order| < max;
    var rest := if again then order else order[1..];
    var tail := Walk(w, known, max, rest, used + 1, Some(e)).1;
    assert atts == [Attempt(order[0], Some(e))] + tail;
    forall k | 0 <= k < |tail| ensures Undecided(tail[k]) { assert tail[k] == atts[k + 1]; }
    TriedBehind(atts[0], tail, order[j]);
    if again {
      NobodyStarves(w, known, max, order, used + 1, Some(e), j);
    } else if j > 0 {
      NobodyStarves(w, known, max, rest, used + 1, Some(e), j - 1);
    }
  }

  function Providers(atts: seq<Attempt>): seq<string> {
    if atts == [] then [] else [atts[0].provider] + Providers(atts[1..])
  }

  function Repeat(p: string, n: nat): seq<string> { if n == 0 then [] else [p] + Repeat(p, n - 1) }

  ghost predicate AlwaysRetryable(w: World) {
    forall k: nat, p :: w.answer(k, p).Err? && Passing(w.answer(k, p).error)
  }

  /** When every error is worth retrying and the chain fits the budget, the first provider gets
      all the slack and every other exactly one call. */
  lemma {:induction false} SlackGoesToFirst(w: World, known: set<string>, max: nat, order: seq<string>, used: nat, last: Option<CallError>)
    requires AllLive(w) && AllKnown(order, known) && AlwaysRetryable(w) && order != [] && used + |order| <= max
    ensures Providers(Walk(w, known, max, order, used, last).1) == Repeat(order[0], max - used - |order| + 1) + order[1..]
    decreases max - used, |order|
  {
    var p := order[0];
    assert p in order && w.answer(used, p).Err?;
    var e := w.answer(used, p).error;
    var rest := if used + |order| < max then order else order[1..];
    var tail := Walk(w, known, max, rest, used + 1, Some(e)).1;
    assert Walk(w, known, max, order, used, last).1 == [Attempt(p, Some(e))] + tail;
    assert ([Attempt(p, Some(e))] + tail)[1..] == tail;
    if used + |order| < max {
      SlackGoesToFirst(w, known, max, order, used + 1, Some(e));
      assert [p] + (Repeat(p, max - used - |order|) + order[1..]) == ([p] + Repeat(p, max - used - |order|)) + order[1..];
    } else {
      assert Repeat(p, 1) == [p];
      if rest != [] {
        SlackGoesToFirst(w, known, max, rest, used + 1, Some(e));
        assert Repeat(rest[0], 1) == [rest[0]] && rest == [rest[0]] + rest[1..];
      }
    }
  }

  // ----- shape

  /** ps goes through order from the front, never back, each for as long as it likes. */
  predicate Stutters(ps: seq<string>, order: seq<string>)
    decreases |ps| + |order|
  {
    ps == [] || (order != [] && ((ps[0] == order[0] && Stutters(ps[1..], order)) || Stutters(ps, order[1..])))
  }

  lemma {:induction false} NeverGoesBack(w: World, known: set<string>, max: nat, order: seq<string>, used: nat, last: Option<CallError>)
    ensures Stutters(Providers(Walk(w, known, max, order, used, last).1), order)
    decreases if used < max then max - used else 0, |order|
  {
    if order != [] && order[0] !in known {
      NeverGoesBack(w, known, max, order[1..], used, last);
    } else if order != [] && used < max && w.ctx(used) == Live {
      var p := order[0];
      var atts := Walk(w, known, max, order, used, last).1;
      assert Providers(atts) == [p] + Providers(atts[1..]) && Providers(atts)[1..] == Providers(atts[1..]);
      if w.answer(used, p).Err? {
        var e := w.answer(used, p).error;
        NeverGoesBack(w, known, max, order, used + 1, Some(e));
        NeverGoesBack(w, known, max, order[1..], used + 1, Some(e));
      }
      assert Stutters(Providers(atts[1..]), order);
    }
  }

  predicate OnlyLastDecided(atts: seq<Attempt>) { forall k :: 0 <= k < |atts| - 1 ==> Undecided(atts[k]) }

  lemma OneMore(a: Attempt, atts: seq<Attempt>)
    requires OnlyLastDecided(atts) && (atts == [] || Undecided(a))
    ensures OnlyLastDecided([a] + atts)
  {
    var all := [a] + atts;
    forall k | 0 <= k < |all| - 1 ensures Undecided(all[k]) {
      if k > 0 { assert all[k] == atts[k - 1]; }
    }
  }

  /** Nothing follows an answer or an error the loop gives up on. */
  lemma {:induction false} DecidedIsLast(w: World, known: set<string>, max: nat, order: seq<string>, used: nat, last: Option<CallError>)
    ensures OnlyLastDecided(Walk(w, known, max, order, used, last).1)
    decreases if used < max then max - used else 0, |order|
  {
    if order != [] && order[0] !in known {
      DecidedIsLast(w, known, max, order[1..], used, last);
    } else if order != [] && used < max && w.ctx(used) == Live && w.answer(used, order[0]).Err? {
      var e := w.answer(used, order[0]).error;
      var a, d := Attempt(order[0], Some(e)), ClassDisposition(ClassOf(e));
      if d.Fail? {
        OneMore(a, []);
      } else {
        var rest := if d.Retry? && used + |order| < max then order else order[1..];
        DecidedIsLast(w, known, max, rest, used + 1, Some(e));
        OneMore(a, Walk(w, known, max, rest, used + 1, Some(e)).1);
      }
    }
  }

  /** How the freshest evidence reads: the last attempt's error, or the one before this stretch. */
  function Freshest(atts: seq<Attempt>, last: Option<CallError>): Option<CallError> {
    if atts == [] then last else atts[|atts| - 1].err
  }

  /** An answer is the last attempt's; an upstream error passed on is the last attempt's; the
      router speaks for itself only if nothing was tried or the caller is gone. */
  lemma {:induction false} CallerSeesTheLast(w: World, known: set<string>, max: nat, order: seq<string>, used: nat, last: Option<CallError>)
    ensures var (r, atts) := Walk(w, known, max, order, used, last);
            && (r.Ok? <==> atts != [] && atts[|atts| - 1].err.None?)
            && (r.Err? && r.error.FromUpstream? ==> Freshest(atts, last) == Some(r.error.e))
            && (r.Err? && r.error.NoAttemptMade? ==> atts == [] && last.None?)
            && (r.Err? && (r.error.CanceledFirst? || r.error.DeadlineFirst?) ==> w.ctx(used + |atts|) != Live)
            && r != Err(NoHealthyProvider)
    decreases if used < max then max - used else 0, |order|
  {
    if order != [] && order[0] !in known {
      assert Walk(w, known, max, order, used, last) == Walk(w, known, max, order[1..], used, last);
      CallerSeesTheLast(w, known, max, order[1..], used, last);
    } else if order != [] && used < max && w.ctx(used) == Live && w.answer(used, order[0]).Err? {
      var e := w.answer(used, order[0]).error;
      var d := ClassDisposition(ClassOf(e));
      var rest := if d.Retry? && used + |order| < max then order else order[1..];
      CallerSeesTheLast(w, known, max, rest, used + 1, Some(e));
    }
  }

  // ----- every call, told from the answers alone

  function ErrorOf(answer: Result<string, CallError>): Option<CallError> {
    if answer.Ok? then None else Some(answer.error)
  }

  /** Where the first known provider from i on stands in the order. */
  function NextKnown(order: seq<string>, known: set<string>, i: nat): (j: nat)
    requires i <= |order|
    ensures i <= j <= |order|
    decreases |order| - i
  {
    if i == |order| || order[i] in known then i else NextKnown(order, known, i + 1)
  }

  /** Who is asked after call n to the provider at place at failed with e, if anybody: the same one for
      a passing fault while a call is left for each behind it, else the next that is known. */
  function AskedNext(known: set<string>, max: nat, order: seq<string>, n: nat, at: nat, e: CallError): nat
    requires at < |order|
  {
    if Passing(e) && n + 1 + (|order| - at - 1) < max then at else NextKnown(order, known, at + 1)
  }

  /** What follows attempt k, used calls having gone before the first. */
  predicate Follows(w: World, known: set<string>, max: nat, order: seq<string>, used: nat, whole: Walked, at: seq<nat>, k: nat)
    requires k < |at| == |whole.1| && at[k] < |order|
  {
    var a, end, n := whole.1[k], k == |at| - 1, used + k;
    if a.err.None? then end && whole.0.Ok? && w.answer(n, a.provider) == Ok(whole.0.value)
    else if Hopeless(a.err.value) then end && whole.0 == Err(FromUpstream(a.err.value))
    else
      var next := AskedNext(known, max, order, n, at[k], a.err.value);
      if next == |order| || n + 1 >= max then end && whole.0 == Err(FromUpstream(a.err.value))
      else if w.ctx(n + 1) != Live then end && whole.0 == Err(if w.ctx(n + 1) == Canceled_ then CanceledFirst else DeadlineFirst)
      else !end && at[k + 1] == next
  }

  /** The attempts are the calls made to the providers at these places, with what each answered. */
  predicate CallsAt(w: World, order: seq<string>, used: nat, atts: seq<Attempt>, at: seq<nat>) {
    && |at| == |atts|
    && forall k :: 0 <= k < |at| ==>
         at[k] < |order| && atts[k] == Attempt(order[at[k]], ErrorOf(w.answer(used + k, order[at[k]])))
  }

  /** Who is asked first, or why nobody is. */
  predicate Opens(w: World, known: set<string>, max: nat, order: seq<string>, i: nat, used: nat, last: Option<CallError>,
                  whole: Walked, at: seq<nat>)
    requires i <= |order|
  {
    var first := NextKnown(order, known, i);
    if first == |order| || used >= max then at == [] && whole.0 == Err(if last.Some? then FromUpstream(last.value) else NoAttemptMade)
    else if w.ctx(used) != Live then at == [] && whole.0 == Err(if w.ctx(used) == Canceled_ then CanceledFirst else DeadlineFirst)
    else at != [] && at[0] == first
  }

  predicate Told(w: World, known: set<string>, max: nat, order: seq<string>, i: nat, used: nat, last: Option<CallError>,
                 whole: Walked, at: seq<nat>)
    requires i <= |order|
  {
    && CallsAt(w, order, used, whole.1, at) && Opens(w, known, max, order, i, used, last, whole, at)
    && forall k :: 0 <= k < |at| ==> Follows(w, known, max, order, used, whole, at, k)
  }

  lemma ToldFurther(w: World, known: set<string>, max: nat, order: seq<string>, i: nat, used: nat, last: Option<CallError>,
                    e: CallError, whole: Walked, at: seq<nat>)
    requires i < |order| && used < max && w.ctx(used) == Live && order[i] in known
    requires w.answer(used, order[i]) == Err(e) && !Hopeless(e)
    requires Told(w, known, max, order, if Passing(e) && used + (|order| - i) < max then i else i + 1, used + 1, Some(e), whole, at)
    ensures Told(w, known, max, order, i, used, last, With(Attempt(order[i], Some(e)), whole), [i] + at)
  {
    var a, all := Attempt(order[i], Some(e)), [i] + at;
    var longer := With(a, whole);
    forall k | 0 <= k < |all|
      ensures all[k] < |order| && longer.1[k] == Attempt(order[all[k]], ErrorOf(w.answer(used + k, order[all[k]])))
    {
      if k > 0 { assert all[k] == at[k - 1] && longer.1[k] == whole.1[k - 1]; }
    }
    forall k | 0 <= k < |all| ensures Follows(w, known, max, order, used, longer, all, k) {
      if k > 0 { assert Follows(w, known, max, order, used + 1, whole, at, k - 1); }
    }
  }

  /** The whole walk: places in the order such that each call goes to the provider at its place, the
      first to the first known one, each next where AskedNext says, and the result is what the last
      call, or the context before the next, makes it. */
  lemma {:induction false} WalkTold(w: World, known: set<string>, max: nat, order: seq<string>, i: nat, used: nat, last: Option<CallError>)
    returns (at: seq<nat>)
    requires i <= |order|
    ensures Told(w, known, max, order, i, used, last, Walk(w, known, max, order[i..], used, last), at)
    decreases if used < max then max - used else 0, |order| - i
  {
    if i == |order| || (order[i] in known && (used >= max || w.ctx(used) != Live)) {
      at := [];
    } else if order[i] !in known {
      at := WalkTold(w, known, max, order, i + 1, used, last);
      assert order[i..][1..] == order[i + 1..];
    } else {
      var answer := w.answer(used, order[i]);
      if answer.Err? && !Hopeless(answer.error) {
        var e := answer.error;
        var again := if Passing(e) && used + (|order| - i) < max then i else i + 1;
        var later := WalkTold(w, known, max, order, again, used + 1, Some(e));
        ToldFurther(w, known, max, order, i, used, last, e, Walk(w, known, max, order[again..], used + 1, Some(e)), later);
        WalkFurther(w, known, max, order, i, used, last, e);
        at := [i] + later;
      } else {
        at := [i];
        ToldLast(w, known, max, order, i, used, last);
      }
    }
  }

  lemma WalkFurther(w: World, known: set<string>, max: nat, order: seq<string>, i: nat, used: nat, last: Option<CallError>, e: CallError)
    requires i < |order| && used < max && w.ctx(used) == Live && order[i] in known
    requires w.answer(used, order[i]) == Err(e) && !Hopeless(e)
    ensures var again := if Passing(e) && used + (|order| - i) < max then i else i + 1;
            Walk(w, known, max, order[i..], used, last)
            == With(Attempt(order[i], Some(e)), Walk(w, known, max, order[again..], used + 1, Some(e)))
  {
    assert order[i..][0] == order[i] && order[i..][1..] == order[i + 1..];
  }

  lemma ToldLast(w: World, known: set<string>, max: nat, order: seq<string>, i: nat, used: nat, last: Option<CallError>)
    requires i < |order| && used < max && w.ctx(used) == Live && order[i] in known
    requires w.answer(used, order[i]).Ok? || Hopeless(w.answer(used, order[i]).error)
    ensures Told(w, known, max, order, i, used, last, Walk(w, known, max, order[i..], used, last), [i])
  {
    assert order[i..][0] == order[i];
  }

  // ----- what the tracker hears

  /** A failure that says something about the provider is reported, without the upstream's own
      wait; a whole answer is reported, a stream not yet. */
  function ReportOne(b: Board, o: H.Options, a: Attempt, streaming: bool, now: int): Board {
    if a.err.None? then (if streaming then b else b[a.provider := H.RecordSuccess(Of(b, a.provider), 0)])
    else if !CountsAgainstHealth(ClassOf(a.err.value)) then b
    else b[a.provider := H.RecordFailure(Of(b, a.provider), o, ClassOf(a.err.value), 0, now)]
  }

  /** The reports of attempts number first and on. */
  function Reported(b: Board, o: H.Options, atts: seq<Attempt>, streaming: bool, w: World, clock: int): Board {
    if atts == [] then b
    else
      var n := |atts| - 1;
      ReportOne(Reported(b, o, atts[..n], streaming, w, clock), o, atts[n], streaming, TimeOr(w.time(n), clock))
  }

  /** What attempts said about provider p: its failures, of whatever class and without the upstream's
      wait, and its whole answers; a stream is not yet an answer. */
  function Heard(p: string, atts: seq<Attempt>, streaming: bool, w: World, clock: int): seq<H.Event> {
    if atts == [] then []
    else
      var n := |atts| - 1;
      var a, now := atts[n], TimeOr(w.time(n), clock);
      Heard(p, atts[..n], streaming, w, clock)
      + if a.provider != p then []
        else if a.err.Some? then [H.Failed(ClassOf(a.err.value), 0, now)]
        else if streaming then [] else [H.Succeeded(0, now)]
  }

  /** What the tracker keeps of each provider after a walk is the history of its own attempts, and of
      nobody else's. */
  lemma {:induction false} TrackerHears(b: Board, o: H.Options, atts: seq<Attempt>, streaming: bool, w: World, clock: int, p: string)
    ensures Of(Reported(b, o, atts, streaming, w, clock), p) == H.Run(Of(b, p), o, Heard(p, atts, streaming, w, clock))
  {
    if atts != [] {
      var n := |atts| - 1;
      var a, now, before := atts[n], TimeOr(w.time(n), clock), Heard(p, atts[..n], streaming, w, clock);
      TrackerHears(b, o, atts[..n], streaming, w, clock, p);
      if a.provider != p || (a.err.None? && streaming) {
        assert before + [] == before;
      } else {
        H.RunAppend(Of(b, p), o, before, if a.err.Some? then H.Failed(ClassOf(a.err.value), 0, now) else H.Succeeded(0, now));
      }
    }
  }
}
