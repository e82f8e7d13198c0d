/** What any history of one provider leaves behind, read off the history: until when it is paused, by
    what its breaker was opened, who holds its probe, and its latency average. */
module HealthLaws {
  import opened Common
  import opened HealthModel

  /** A failure that says something about the provider. */
  predicate Fault(e: Event) {
    e.Failed? && (e.c == Auth || e.c == PaymentRequired || e.c == RateLimited || e.c == Upstream || e.c == Timeout || e.c == Internal)
  }

  // ----- pauses

  /** The ends of the pauses a failure asks for: what a rate limit names, or half a minute if it names
      nothing; a quarter of an hour for billing, or what it names. No other failure asks for one. */
  function PauseEnds(e: Event): set<int> {
    if !e.Failed? then {}
    else if e.c == RateLimited then {e.now + if e.retryAfter > 0 then e.retryAfter else 30 * SECOND}
    else if e.c == PaymentRequired then {e.now + 15 * MINUTE, e.now + e.retryAfter}
    else {}
  }

  function AllEnds(es: seq<Event>): set<int> {
    if es == [] then {ZERO_TIME} else AllEnds(es[..|es| - 1]) + PauseEnds(es[|es| - 1])
  }

  predicate Latest(t: int, ends: set<int>) { t in ends && forall u :: u in ends ==> u <= t }

  /** A provider is paused until the latest end of any pause asked for, whatever else was reported. */
  lemma {:induction false} PausedUntil(o: Options, es: seq<Event>)
    ensures Latest(Run(NEW_HEALTH, o, es).cooldownUntil, AllEnds(es))
  {
    if es != [] {
      var init, e := es[..|es| - 1], es[|es| - 1];
      assert es == init + [e];
      PausedUntil(o, init);
      RunAppend(NEW_HEALTH, o, init, e);
      StepPauses(Run(NEW_HEALTH, o, init), o, e);
    }
  }

  lemma StepPauses(h: Health, o: Options, e: Event)
    ensures var t := Step(h, o, e).cooldownUntil;
            (t == h.cooldownUntil || t in PauseEnds(e)) && t >= h.cooldownUntil && forall u :: u in PauseEnds(e) ==> u <= t
  {
  }

  // ----- the breaker

  /** Faults since the last success. */
  function FaultStreak(es: seq<Event>): nat {
    if es == [] || es[|es| - 1].Succeeded? then 0
    else FaultStreak(es[..|es| - 1]) + if Fault(es[|es| - 1]) then 1 else 0
  }

  lemma {:induction false} StreaksAgree(es: seq<Event>)
    ensures FaultStreak(es) == Streak(es)
  {
    if es != [] { StreaksAgree(es[..|es| - 1]); }
  }

  /** The breaker is closed exactly while fewer faults than the threshold have come since the last
      success; requests the provider rightly rejected, and callers who hung up, count for nothing. */
  lemma ClosedBelowThreshold(o: Options, es: seq<Event>, clock: int)
    requires InOrder(es, clock) && Sane(o)
    ensures Run(NEW_HEALTH, o, es).breaker.BreakerClosed? <==> FaultStreak(es) < o.breakerThreshold
  {
    StreaksAgree(es);
    BreakerIsStreak(o, es, clock);
  }

  function At(o: Options, es: seq<Event>): Health { Run(NEW_HEALTH, o, es) }

  /** Event i opened the breaker: a fault that found it not open and left it open, with nothing that
      moved it since. */
  ghost predicate OpenedAt(o: Options, es: seq<Event>, i: int) {
    && 0 <= i < |es| && Fault(es[i]) && !At(o, es[..i]).breaker.BreakerOpen?
    && forall j :: i < j <= |es| ==> At(o, es[..j]).breaker.BreakerOpen?
  }

  lemma {:induction false} AtPrefix(o: Options, es: seq<Event>, j: nat)
    requires j < |es|
    ensures At(o, es) == Step(At(o, es[..|es| - 1]), o, es[|es| - 1])
    ensures es[..|es| - 1][..j] == es[..j]
  {
    assert es == es[..|es| - 1] + [es[|es| - 1]];
    RunAppend(NEW_HEALTH, o, es[..|es| - 1], es[|es| - 1]);
  }

  lemma FaultOpens(h: Health, o: Options, e: Event, clock: int)
    requires Inv(h, o, clock) && clock <= e.now && Sane(o) && Step(h, o, e).breaker.BreakerOpen?
    ensures !h.breaker.BreakerOpen? ==> Fault(e) && Step(h, o, e).openedAt == e.now
    ensures h.breaker.BreakerOpen? ==> Step(h, o, e).openedAt == h.openedAt
  {
  }

  /** An open breaker was opened by one fault, and its cooldown counts from that one: reports that come
      in while it is open never extend it. */
  lemma {:induction false} OpenedByOne(o: Options, es: seq<Event>, clock: int) returns (i: nat)
    requires InOrder(es, clock) && Sane(o) && At(o, es).breaker.BreakerOpen?
    ensures OpenedAt(o, es, i) && At(o, es).openedAt == es[i].now
  {
    var n := |es| - 1;
    var init, e := es[..n], es[n];
    AtPrefix(o, es, n);
    OrderKept(es, clock);
    RunKeeps(NEW_HEALTH, o, init, clock);
    FaultOpens(At(o, init), o, e, Last(init, clock));
    assert es[..|es|] == es;
    if At(o, init).breaker.BreakerOpen? {
      i := OpenedByOne(o, init, clock);
      forall j | i < j <= |es| ensures At(o, es[..j]).breaker.BreakerOpen? {
        if j < |es| { assert init[..j] == es[..j]; }
      }
      assert init[..i] == es[..i];
    } else {
      i := n;
    }
  }

  lemma {:induction false} OrderKept(es: seq<Event>, clock: int)
    requires es != [] && InOrder(es, clock)
    ensures var n := |es| - 1; InOrder(es[..n], clock) && Last(es[..n], clock) <= es[n].now
  {
    var n := |es| - 1;
    if n > 0 {
      OrderKept(es[1..], es[0].now);
      assert es[1..][..n - 1] == es[..n][1..] && es[..n][0] == es[0];
      assert n > 1 ==> es[1..][n - 2] == es[..n][n - 1];
    }
  }

  // ----- the probe

  lemma {:induction false} AdmissionsAppend(h: Health, o: Options, es: seq<Event>, e: Event)
    ensures Admissions(h, o, es + [e])
         == Admissions(h, o, es) + if e.Asked? && Available(Run(h, o, es), o, e.now).1 then [e.now] else []
    decreases es
  {
    if es == [] {
      assert [] + [e] == [e] && [e][1..] == [];
    } else {
      AdmissionsAppend(Step(h, o, es[0]), o, es[1..], e);
      assert (es + [e])[1..] == es[1..] + [e];
    }
  }

  /** A half-open breaker is one whose latest admission is out and has not been reported on: its probe
      began then. */
  lemma {:induction false} ProbeIsLastAdmission(o: Options, es: seq<Event>, clock: int)
    requires InOrder(es, clock) && Sane(o)
    ensures At(o, es).breaker.BreakerHalfOpen? ==>
              var ts := Admissions(NEW_HEALTH, o, es); ts != [] && ts[|ts| - 1] == At(o, es).probeStarted
  {
    if es != [] {
      var n := |es| - 1;
      var init, e := es[..n], es[n];
      AtPrefix(o, es, n);
      OrderKept(es, clock);
      RunKeeps(NEW_HEALTH, o, init, clock);
      ProbeIsLastAdmission(o, init, clock);
      assert es == init + [e];
      AdmissionsAppend(NEW_HEALTH, o, init, e);
    }
  }

  // ----- latency

  /** Timings reported, in order; a call that has none to report gives none. */
  function Timings(es: seq<Event>): seq<int> {
    if es == [] then []
    else Timings(es[..|es| - 1]) + if es[|es| - 1].Succeeded? && es[|es| - 1].ttft > 0 then [es[|es| - 1].ttft] else []
  }

  predicate Between(lo: int, xs: seq<int>, hi: int) { forall x :: x in xs ==> lo <= x <= hi }

  /** There is an average from the fifth timing on; it is never outside what was timed. */
  lemma {:induction false} AverageWithin(o: Options, es: seq<Event>, lo: int, hi: int)
    requires Between(lo, Timings(es), hi)
    ensures var h := At(o, es);
            && h.samples == |Timings(es)| && (Latency(h).Some? <==> |Timings(es)| >= 5)
            && (h.samples > 0 ==> lo <= h.ewma <= hi)
  {
    if es != [] {
      var n := |es| - 1;
      AtPrefix(o, es, n);
      assert forall x :: x in Timings(es[..n]) ==> x in Timings(es);
      AverageWithin(o, es[..n], lo, hi);
      if es[n].Succeeded? && es[n].ttft > 0 { assert es[n].ttft in Timings(es); }
    }
  }

  /** Each timing moves the average a fifth of the way to it, the first all the way. */
  lemma MovesAFifth(o: Options, es: seq<Event>, x: int, now: int)
    requires x > 0
    ensures var a, b := At(o, es).ewma, At(o, es + [Succeeded(x, now)]).ewma;
            if Timings(es) == [] then b == x else 5 * (b - a) <= x - a < 5 * (b - a) + 5
  {
    RunAppend(NEW_HEALTH, o, es, Succeeded(x, now));
    AverageCounts(o, es);
  }

  lemma {:induction false} AverageCounts(o: Options, es: seq<Event>)
    ensures At(o, es).samples == |Timings(es)|
  {
    if es != [] {
      AtPrefix(o, es, |es| - 1);
      AverageCounts(o, es[..|es| - 1]);
    }
  }
}
