/** Cutting a stream short: it is never taken for a whole one, and what was delivered is a prefix. */
module Truncation {
  import opened Common
  import S = SseSpec
  import opened StreamSpec

  /** How many bytes it takes for the event carrying the completeness marker to be closed. */
  function MarkerEnd(w: Wire, l: Latch, rest: string, endErr: S.ReadErr): Option<nat>
    decreases |rest|
  {
    match S.Next(rest, endErr)
    case Stop(_) => None
    case Event(ev, rest') =>
      var used := |rest| - |rest'|;
      match Interpret(w, l, ev)
      case Emit(_, l') => if l'.saw && !l.saw then Some(used) else After(used, MarkerEnd(w, l', rest', endErr))
      case Skip(l') => After(used, MarkerEnd(w, l', rest', endErr))
      case Finish(_) => Some(used)
      case Fail(_) => None
  }

  function After(used: nat, n: Option<nat>): Option<nat> {
    if n.None? then None else Some(used + n.value)
  }

  function DataOnly(cs: seq<Chunk>): seq<Chunk> {
    if cs == [] then [] else (if cs[0].Keepalive? then [] else [cs[0]]) + DataOnly(cs[1..])
  }

  lemma DataOnlyCons(c: Chunk, rest: seq<Chunk>)
    ensures DataOnly([c] + rest) == (if c.Keepalive? then [] else [c]) + DataOnly(rest)
  {
    assert ([c] + rest)[1..] == rest;
  }

  lemma {:induction false} DataOnlyAppend(a: seq<Chunk>, b: seq<Chunk>)
    ensures DataOnly(a + b) == DataOnly(a) + DataOnly(b)
  {
    if a == [] {
      assert a + b == b;
    } else {
      var c, rest := a[0], a[1..];
      DataOnlyAppend(rest, b);
      DataOnlyCons(c, rest);
      DataOnlyCons(c, rest + b);
      assert a == [c] + rest && a + b == [c] + (rest + b);
    }
  }

  const OVERSIZED := Failed(Upstream, OversizedEvent)

  /** Deliveries of a cut body (c1, t1) against those of the whole (c2, t2). */
  predicate CutDelivers(c1: seq<Chunk>, t1: Term, c2: seq<Chunk>, t2: Term, e1: S.ReadErr, env: Env) {
    && (t1 == RecvError(false, e1, env) || (t1.Failed? && t1 == t2 && c1 == c2))
    && (c1 <= c2 || (c1 == c2 + [Keepalive] && t2 == OVERSIZED))
  }

  lemma CutKeeps(c: Chunk, d1: (seq<Chunk>, Term), d2: (seq<Chunk>, Term), e1: S.ReadErr, env: Env)
    requires CutDelivers(d1.0, d1.1, d2.0, d2.1, e1, env)
    ensures CutDelivers(Then(c, d1).0, d1.1, Then(c, d2).0, d2.1, e1, env)
  {
    if d1.0 == d2.0 + [Keepalive] { assert [c] + d1.0 == ([c] + d2.0) + [Keepalive]; }
  }

  /** The first event of body ends within its first n bytes. */
  predicate ClosedBy(body: string, n: nat, e2: S.ReadErr) {
    var whole := S.Next(body, e2);
    whole.Event? && |body| - |whole.rest| <= n
  }

  /** An event that ends within the cut is the cut body's too, and the rest is cut where it was. */
  lemma {:induction false} EventBeforeCut(body: string, n: nat, e1: S.ReadErr, e2: S.ReadErr) returns (ev: S.SSEEvent, rest: string, n': nat)
    requires n <= |body| && ClosedBy(body, n, e2)
    ensures S.Next(body, e2) == S.Event(ev, rest) && |rest| < |body| && n' == n - (|body| - |rest|)
    ensures n' <= |rest| && S.Next(body[..n], e1) == S.Event(ev, rest[..n'])
  {
    if S.EarlyFrom(body, n, S.NOTHING, S.MAX_EVENT).Some? {
      S.EarlyReads(body, n, e1, e2, S.NOTHING, S.MAX_EVENT);
    }
    S.CutNext(body, n, e1, e2, S.NOTHING, S.MAX_EVENT);
    S.EventConsumes(body, e2, S.NOTHING, S.MAX_EVENT);
    ev, rest := S.Next(body, e2).ev, S.Next(body, e2).rest;
    n' := n - (|body| - |rest|);
    assert body[|body| - |rest|..n] == rest[..n'];
  }

  /** An event closed before its time, the latch it meets, and what the whole body holds from the
      start of that event on. */
  datatype Torn = Torn(l: Latch, ev: S.SSEEvent, whole: string)

  /** The event the cut closes early; None when it closes none. */
  function Early(w: Wire, l: Latch, body: string, n: nat, e2: S.ReadErr): Option<Torn>
    requires n <= |body|
    decreases |body|
  {
    if ClosedBy(body, n, e2) then
      var whole := S.Next(body, e2);
      match Interpret(w, l, whole.ev)
      case Emit(_, l') => Early(w, l', whole.rest, n - (|body| - |whole.rest|), e2)
      case Skip(l') => Early(w, l', whole.rest, n - (|body| - |whole.rest|), e2)
      case _ => None
    else
      var ev := S.EarlyFrom(body, n, S.NOTHING, S.MAX_EVENT);
      if ev.Some? then Some(Torn(l, ev.value, body)) else None
  }

  lemma {:induction false} FirstEvent(body: string, e2: S.ReadErr) returns (ev: S.SSEEvent, used: nat)
    requires S.Next(body, e2).Event?
    ensures 0 < used <= |body| && S.Next(body, e2) == S.Event(ev, body[used..])
    ensures used < |body| ==> body[used - 1] == '\n'
  {
    S.EventConsumes(body, e2, S.NOTHING, S.MAX_EVENT);
    S.EventEnds(body, e2, S.NOTHING, S.MAX_EVENT);
    ev, used := S.Next(body, e2).ev, |body| - |S.Next(body, e2).rest|;
  }

  /** A cut closes no event early if it closes none of the rest. */
  lemma {:induction false} NotEarlyOn(w: Wire, l: Latch, body: string, n: nat, e2: S.ReadErr, ev: S.SSEEvent, rest: string, m: nat)
    requires S.Next(body, e2) == S.Event(ev, rest) && |rest| < |body| && |body| - |rest| <= n <= |body|
    requires m == n - (|body| - |rest|) && forall l' :: Early(w, l', rest, m, e2).None?
    ensures Early(w, l, body, n, e2).None?
  {
    var whole := S.Next(body, e2);
    assert n - (|body| - |whole.rest|) == m && whole.rest == rest;
    match Interpret(w, l, ev)
    case Emit(_, l') => assert Early(w, l', rest, m, e2).None?;
    case Skip(l') => assert Early(w, l', rest, m, e2).None?;
    case _ =>
  }

  lemma NotEarlyHere(w: Wire, l: Latch, body: string, n: nat, e2: S.ReadErr)
    requires n <= |body| && !ClosedBy(body, n, e2) && S.EarlyFrom(body, n, S.NOTHING, S.MAX_EVENT).None?
    ensures Early(w, l, body, n, e2).None?
  {
  }

  /** No cut of a body without a line that starts with a CR closes an event early. */
  lemma {:induction false} PlainNeverEarly(w: Wire, l: Latch, body: string, n: nat, e2: S.ReadErr)
    requires n <= |body| && S.NoCRLine(body)
    ensures Early(w, l, body, n, e2).None?
    decreases |body|
  {
    if ClosedBy(body, n, e2) {
      var ev, used := FirstEvent(body, e2);
      PlainRest(body, used);
      var rest, m := body[used..], n - used;
      forall l' ensures Early(w, l', rest, m, e2).None? { PlainNeverEarly(w, l', rest, m, e2); }
      NotEarlyOn(w, l, body, n, e2, ev, rest, m);
    } else {
      S.NeverEarly(body, n, S.NOTHING, S.MAX_EVENT);
      NotEarlyHere(w, l, body, n, e2);
    }
  }

  lemma PlainRest(body: string, used: nat)
    requires S.NoCRLine(body) && 0 < used <= |body| && (used < |body| ==> body[used - 1] == '\n')
    ensures S.NoCRLine(body[used..])
  {
    if used < |body| { S.NoCRLineAfter(body, used); }
  }

  /** Nor does a cut that is not right behind a CR. */
  lemma {:induction false} NotBehindCRNeverEarly(w: Wire, l: Latch, body: string, n: nat, e2: S.ReadErr)
    requires n <= |body| && NotBehindCR(body, n)
    ensures Early(w, l, body, n, e2).None?
    decreases |body|
  {
    if ClosedBy(body, n, e2) {
      var ev, used := FirstEvent(body, e2);
      BehindRest(body, n, used);
      var rest, m := body[used..], n - used;
      forall l' ensures Early(w, l', rest, m, e2).None? { NotBehindCRNeverEarly(w, l', rest, m, e2); }
      NotEarlyOn(w, l, body, n, e2, ev, rest, m);
    } else {
      S.NotBehindCR(body, n, S.NOTHING, S.MAX_EVENT);
      NotEarlyHere(w, l, body, n, e2);
    }
  }

  predicate NotBehindCR(body: string, n: nat)
    requires n <= |body|
  {
    n > 0 ==> body[n - 1] != '\r'
  }

  lemma BehindRest(body: string, n: nat, used: nat)
    requires used <= n <= |body| && NotBehindCR(body, n)
    ensures NotBehindCR(body[used..], n - used)
  {
  }

  lemma {:induction false} CutDeliver(w: Wire, l: Latch, body: string, n: nat, e1: S.ReadErr, e2: S.ReadErr, env: Env)
    requires n <= |body| && !l.saw && Early(w, l, body, n, e2).None?
    requires var m := MarkerEnd(w, l, body, e2); m.None? || n < m.value
    ensures var (c1, t1) := Deliver(w, l, body[..n], e1, env);
            var (c2, t2) := Deliver(w, l, body, e2, env);
            CutDelivers(c1, t1, c2, t2, e1, env)
    decreases |body|, 1
  {
    if ClosedBy(body, n, e2) {
      var ev, rest, n' := EventBeforeCut(body, n, e1, e2);
      CutClosed(w, l, body[..n], body, ev, n', rest, e1, e2, env);
    } else {
      S.CutNext(body, n, e1, e2, S.NOTHING, S.MAX_EVENT);
      CutWithinEvent(w, l, body[..n], body, e1, e2, env);
    }
  }

  lemma {:induction false} CutClosed(w: Wire, l: Latch, cut: string, body: string, ev: S.SSEEvent, n: nat, rest: string,
                                     e1: S.ReadErr, e2: S.ReadErr, env: Env)
    requires S.Next(body, e2) == S.Event(ev, rest) && |rest| < |body|
    requires n <= |rest| && !l.saw && S.Next(cut, e1) == S.Event(ev, rest[..n])
    requires var r := Interpret(w, l, ev); r.Emit? || r.Skip? ==> Early(w, r.l, rest, n, e2).None?
    requires var m := MarkerEnd(w, l, body, e2); m.None? || n + |body| - |rest| < m.value
    ensures CutDelivers(Deliver(w, l, cut, e1, env).0, Deliver(w, l, cut, e1, env).1,
                        Deliver(w, l, body, e2, env).0, Deliver(w, l, body, e2, env).1, e1, env)
    decreases |body|, 0
  {
    var r := Interpret(w, l, ev);
    SawOnlyByMarker(w, l, ev);
    if r.Emit? || r.Skip? { CutDeliver(w, r.l, rest, n, e1, e2, env); }
    CutAfterEvent(w, l, cut, body, ev, rest[..n], rest, e1, e2, env);
  }

  lemma CutWithinEvent(w: Wire, l: Latch, cut: string, body: string, e1: S.ReadErr, e2: S.ReadErr, env: Env)
    requires !l.saw
    requires
      || S.Next(cut, e1) == S.Stop(e1)
      || (S.Next(body, e2) == S.Next(cut, e1) == S.Stop(S.TooLarge))
      || (S.Next(cut, e1) == S.Event(S.KEEPALIVE, "") &&
          (S.Next(body, e2) == S.Stop(S.TooLarge) || (S.Next(body, e2).Event? && S.Next(body, e2).ev == S.KEEPALIVE)))
    ensures CutDelivers(Deliver(w, l, cut, e1, env).0, Deliver(w, l, cut, e1, env).1,
                        Deliver(w, l, body, e2, env).0, Deliver(w, l, body, e2, env).1, e1, env)
  {
    assert S.Next("", e1) == S.Stop(e1);
  }

  lemma CutAfterEvent(w: Wire, l: Latch, cut: string, body: string, ev: S.SSEEvent, cutRest: string, rest: string,
                      e1: S.ReadErr, e2: S.ReadErr, env: Env)
    requires S.Next(body, e2) == S.Event(ev, rest) && S.Next(cut, e1) == S.Event(ev, cutRest)
    requires !Interpret(w, l, ev).Finish?
    requires var r := Interpret(w, l, ev);
             r.Emit? || r.Skip? ==>
               CutDelivers(Deliver(w, r.l, cutRest, e1, env).0, Deliver(w, r.l, cutRest, e1, env).1,
                           Deliver(w, r.l, rest, e2, env).0, Deliver(w, r.l, rest, e2, env).1, e1, env)
    requires var r := Interpret(w, l, ev); r.Fail? ==> r.t.Failed?
    ensures CutDelivers(Deliver(w, l, cut, e1, env).0, Deliver(w, l, cut, e1, env).1,
                        Deliver(w, l, body, e2, env).0, Deliver(w, l, body, e2, env).1, e1, env)
  {
    var r := Interpret(w, l, ev);
    if r.Emit? {
      CutKeeps(r.c, Deliver(w, r.l, cutRest, e1, env), Deliver(w, r.l, rest, e2, env), e1, env);
    }
  }

  lemma SawOnlyByMarker(w: Wire, l: Latch, ev: S.SSEEvent)
    ensures var r := Interpret(w, l, ev); (r.Skip? ==> r.l.saw == l.saw) && (r.Fail? ==> r.t.Failed?)
  {
  }

  /** Cut a body anywhere before its completeness marker's event has been closed by a blank line:
      unless the cut closes an event early, the stream does not end complete; when the body simply
      stops it ends truncated, unless a failure before the cut ended the whole stream just the same;
      and the data chunks delivered are a prefix of the whole stream's. */
  lemma CutAnywhere(w: Wire, model: string, body: string, n: nat, e1: S.ReadErr, e2: S.ReadErr, env: Env)
    requires n <= |body| && Early(w, Fresh(model), body, n, e2).None?
    requires var m := MarkerEnd(w, Fresh(model), body, e2); m.None? || n < m.value
    ensures var (c1, t1) := Deliver(w, Fresh(model), body[..n], e1, env);
            var (c2, t2) := Deliver(w, Fresh(model), body, e2, env);
            && t1 != Complete
            && (e1 == S.EOF ==> t1 == Truncated || (t1.Failed? && t1 == t2 && c1 == c2))
            && DataOnly(c1) <= DataOnly(c2)
            && (t2 != OVERSIZED ==> c1 <= c2)
  {
    CutDeliver(w, Fresh(model), body, n, e1, e2, env);
    DataPrefix(Deliver(w, Fresh(model), body[..n], e1, env).0, Deliver(w, Fresh(model), body, e2, env).0);
  }

  /** Bodies in which no line starts with a CR, those without any CR among them, can be cut at any
      byte. */
  lemma CutPlainAnywhere(w: Wire, model: string, body: string, n: nat, e1: S.ReadErr, e2: S.ReadErr, env: Env)
    requires n <= |body| && S.NoCRLine(body)
    requires var m := MarkerEnd(w, Fresh(model), body, e2); m.None? || n < m.value
    ensures var (c1, t1) := Deliver(w, Fresh(model), body[..n], e1, env);
            var (c2, t2) := Deliver(w, Fresh(model), body, e2, env);
            && t1 != Complete
            && (e1 == S.EOF ==> t1 == Truncated || (t1.Failed? && t1 == t2 && c1 == c2))
            && DataOnly(c1) <= DataOnly(c2)
  {
    PlainNeverEarly(w, Fresh(model), body, n, e2);
    CutAnywhere(w, model, body, n, e1, e2, env);
  }

  // ----- a cut that closes an event early

  /** How a stream ends whose last event is ev. */
  function EndsIn(w: Wire, l: Latch, ev: S.SSEEvent, err: S.ReadErr, env: Env): Term {
    match Interpret(w, l, ev)
    case Emit(_, l') => RecvError(l'.saw, err, env)
    case Skip(l') => RecvError(l'.saw, err, env)
    case Finish(_) => Complete
    case Fail(t) => t
  }

  /** The chunk an event brings, if it brings one. */
  function Brings(w: Wire, l: Latch, ev: S.SSEEvent): seq<Chunk> {
    match Interpret(w, l, ev)
    case Emit(c, _) => [c]
    case _ => []
  }

  lemma LastEvent(w: Wire, l: Latch, cut: string, ev: S.SSEEvent, e1: S.ReadErr, env: Env)
    requires S.Next(cut, e1) == S.Event(ev, "")
    ensures Deliver(w, l, cut, e1, env) == (Brings(w, l, ev), EndsIn(w, l, ev, e1, env))
  {
    var r := Interpret(w, l, ev);
    if r.Emit? || r.Skip? {
      assert S.NextFrom("", e1, S.NOTHING, S.MAX_EVENT) == S.Stop(e1);
      assert Deliver(w, r.l, "", e1, env) == ([], RecvError(r.l.saw, e1, env));
      if r.Emit? { assert [r.c] + [] == [r.c]; }
    }
  }

  /** Such a cut delivers what the whole body does up to that event, then what the event closed early
      brings, and ends as that event makes it end. */
  lemma {:induction false} EarlyDelivers(w: Wire, l: Latch, body: string, n: nat, e1: S.ReadErr, e2: S.ReadErr, env: Env)
    returns (before: seq<Chunk>)
    requires n <= |body| && Early(w, l, body, n, e2).Some?
    ensures var torn := Early(w, l, body, n, e2).value;
            EarlyView(w, l, body[..n], body, before, torn, e1, e2, env)
    decreases |body|
  {
    if ClosedBy(body, n, e2) {
      var ev, rest, n' := EventBeforeCut(body, n, e1, e2);
      var r := Interpret(w, l, ev);
      var later := EarlyDelivers(w, r.l, rest, n', e1, e2, env);
      before := (if r.Emit? then [r.c] else []) + later;
      EarlyStep(w, l, body[..n], body, ev, rest[..n'], rest, e1, e2, env, later, Early(w, r.l, rest, n', e2).value);
    } else {
      var ev := S.EarlyFrom(body, n, S.NOTHING, S.MAX_EVENT).value;
      S.EarlyReads(body, n, e1, e2, S.NOTHING, S.MAX_EVENT);
      LastEvent(w, l, body[..n], ev, e1, env);
      before := [];
      assert [] + Brings(w, l, ev) == Brings(w, l, ev) && [] + Chunks(w, l, body, e2, env) == Chunks(w, l, body, e2, env);
    }
  }

  /** How cut and body compare when they agree on before and the cut then closes torn early. */
  predicate EarlyView(w: Wire, l: Latch, cut: string, body: string, before: seq<Chunk>, torn: Torn, e1: S.ReadErr, e2: S.ReadErr, env: Env) {
    && Deliver(w, l, cut, e1, env) == (before + Brings(w, torn.l, torn.ev), EndsIn(w, torn.l, torn.ev, e1, env))
    && Chunks(w, l, body, e2, env) == before + Chunks(w, torn.l, torn.whole, e2, env)
  }

  lemma EarlyStep(w: Wire, l: Latch, cut: string, body: string, ev: S.SSEEvent, cutRest: string, rest: string,
                  e1: S.ReadErr, e2: S.ReadErr, env: Env, later: seq<Chunk>, torn: Torn)
    requires S.Next(body, e2) == S.Event(ev, rest) && S.Next(cut, e1) == S.Event(ev, cutRest)
    requires var r := Interpret(w, l, ev); (r.Emit? || r.Skip?) && EarlyView(w, r.l, cutRest, rest, later, torn, e1, e2, env)
    ensures var r := Interpret(w, l, ev);
            EarlyView(w, l, cut, body, (if r.Emit? then [r.c] else []) + later, torn, e1, e2, env)
  {
    var r := Interpret(w, l, ev);
    if r.Emit? {
      HeadFirst(r.c, later, Brings(w, torn.l, torn.ev));
      HeadFirst(r.c, later, Chunks(w, torn.l, torn.whole, e2, env));
    } else {
      assert [] + later == later;
    }
  }

  lemma HeadFirst(c: Chunk, a: seq<Chunk>, b: seq<Chunk>)
    ensures [c] + (a + b) == ([c] + a) + b
  {
  }

  /** Cut before its marker, a stream ends complete exactly when the cut closes the marker's event
      early: it leaves a last line of CRs alone inside an event that completes the stream. */
  lemma CutEndsComplete(w: Wire, model: string, body: string, n: nat, e1: S.ReadErr, e2: S.ReadErr, env: Env)
    requires n <= |body|
    requires var m := MarkerEnd(w, Fresh(model), body, e2); m.None? || n < m.value
    ensures var early := Early(w, Fresh(model), body, n, e2);
            Deliver(w, Fresh(model), body[..n], e1, env).1 == Complete
            <==> early.Some? && EndsIn(w, early.value.l, early.value.ev, e1, env) == Complete
  {
    if Early(w, Fresh(model), body, n, e2).Some? {
      var _ := EarlyDelivers(w, Fresh(model), body, n, e1, e2, env);
    } else {
      CutAnywhere(w, model, body, n, e1, e2, env);
    }
  }

  /** What it delivers is a prefix exactly when what the event closed early brings comes next in the
      whole body too; it does when nothing but a line end was cut in two, the event being the same. */
  lemma EarlyPrefix(w: Wire, l: Latch, body: string, n: nat, e1: S.ReadErr, e2: S.ReadErr, env: Env)
    requires n <= |body| && Early(w, l, body, n, e2).Some?
    ensures var torn := Early(w, l, body, n, e2).value;
            && (Chunks(w, l, body[..n], e1, env) <= Chunks(w, l, body, e2, env)
                <==> Brings(w, torn.l, torn.ev) <= Chunks(w, torn.l, torn.whole, e2, env))
            && (S.Next(torn.whole, e2).Event? && S.Next(torn.whole, e2).ev == torn.ev ==>
                Brings(w, torn.l, torn.ev) <= Chunks(w, torn.l, torn.whole, e2, env))
  {
    var torn := Early(w, l, body, n, e2).value;
    var before := EarlyDelivers(w, l, body, n, e1, e2, env);
    SamePrefix(before, Brings(w, torn.l, torn.ev), Chunks(w, torn.l, torn.whole, e2, env));
  }

  lemma SamePrefix(before: seq<Chunk>, a: seq<Chunk>, b: seq<Chunk>)
    ensures before + a <= before + b <==> a <= b
  {
    assert (before + a)[|before|..] == a && (before + b)[|before|..] == b;
    if before + a <= before + b {
      forall i | 0 <= i < |a| ensures a[i] == b[i] { assert (before + a)[|before| + i] == (before + b)[|before| + i]; }
    }
  }

  const CRLF_LINE := "data: [DONE]\r\n"
  const CRLF_BODY := CRLF_LINE + "\r\n"

  /** How the two lines of a sentinel on a CRLF wire read. */
  lemma SentinelLine()
    ensures S.LineLen(CRLF_BODY) == |CRLF_LINE| && S.TrimRight(CRLF_LINE) == "data: [DONE]"
    ensures S.LineLen("\r\n") == 2 && S.TrimRight("\r\n") == "" && S.TrimRight("\r") == ""
  {
    var head := "data: [DONE]\r";
    S.LineLenSplit(head, "\n\r\n");
    assert CRLF_BODY == head + "\n\r\n" && CRLF_LINE[..13] == head && head[..12] == "data: [DONE]";
    S.LineLenSplit("\r", "\n");
    assert "\r\n" == "\r" + "\n" && "\r\n"[..1] == "\r" && "\r"[..0] == "";
  }

  lemma SentinelFolds(left: nat)
    ensures S.ReadLine("data: [DONE]", S.NOTHING, left) == S.Continue(S.Partial("", ["[DONE]"]), left)
  {
    var line := "data: [DONE]";
    assert line[..5] == "data:" && line[5..] == " [DONE]" && " [DONE]"[1..] == "[DONE]";
  }

  /** A whole OpenAI stream on a CRLF wire, a byte short: it still ends complete. */
  lemma CRLFExample(usageOf: string -> Option<Usage>, env: Env)
    ensures MarkerEnd(OpenAI(usageOf), Fresh(""), CRLF_BODY, S.EOF) == Some(|CRLF_BODY|)
    ensures Deliver(OpenAI(usageOf), Fresh(""), CRLF_BODY[..|CRLF_BODY| - 1], S.EOF, env) == ([], Complete)
  {
    var p, left, n := S.Partial("", ["[DONE]"]), S.MAX_EVENT - |CRLF_LINE|, |CRLF_BODY| - 1;
    SentinelLine();
    SentinelFolds(left);
    assert CRLF_BODY[..|CRLF_LINE|] == CRLF_LINE && CRLF_BODY[|CRLF_LINE|..] == "\r\n";
    assert S.NextFrom("\r\n", S.EOF, p, left) == S.Event(S.Built(p), "") by { assert "\r\n"[..2] == "\r\n" && "\r\n"[2..] == ""; }
    assert S.Next(CRLF_BODY, S.EOF) == S.Event(S.Built(p), "");
    assert S.EarlyFrom("\r\n", 1, p, left) == Some(S.Built(p)) by { assert "\r\n"[..1] == "\r"; }
    assert S.EarlyFrom(CRLF_BODY, n, S.NOTHING, S.MAX_EVENT) == S.EarlyFrom("\r\n", 1, p, left);
    S.EarlyReads(CRLF_BODY, n, S.EOF, S.EOF, S.NOTHING, S.MAX_EVENT);
    LastEvent(OpenAI(usageOf), Fresh(""), CRLF_BODY[..n], S.Built(p), S.EOF, env);
  }

  lemma DataPrefix(c1: seq<Chunk>, c2: seq<Chunk>)
    requires c1 <= c2 || c1 == c2 + [Keepalive]
    ensures DataOnly(c1) <= DataOnly(c2)
  {
    if c1 <= c2 {
      DataOnlyAppend(c1, c2[|c1|..]);
      assert c2 == c1 + c2[|c1|..];
    } else {
      DataOnlyAppend(c2, [Keepalive]);
      assert DataOnly([Keepalive]) == [];
    }
  }

  /** A stream ends complete only by its marker; where the marker ends it, exactly when it is read. */
  lemma {:induction false} CompleteByMarkerOnly(w: Wire, l: Latch, body: string, endErr: S.ReadErr, env: Env)
    requires !l.saw
    ensures Deliver(w, l, body, endErr, env).1 == Complete ==> MarkerEnd(w, l, body, endErr).Some?
    ensures !w.Gemini? ==> (Deliver(w, l, body, endErr, env).1 == Complete <==> MarkerEnd(w, l, body, endErr).Some?)
    decreases |body|
  {
    var n := S.Next(body, endErr);
    if n.Event? {
      var r := Interpret(w, l, n.ev);
      SawOnlyByMarker(w, l, n.ev);
      if (r.Emit? || r.Skip?) && !r.l.saw { CompleteByMarkerOnly(w, r.l, n.rest, endErr, env); }
    }
  }

  // ----- the one way in which keepalives are not a prefix

  /** The cut falls inside a comment line, outside any event, that alone overruns the budget:
      whole, the line fails the stream; cut within the budget, it reads as a sign of life. */
  predicate TornComment(body: string, n: nat, p: S.Partial, remaining: nat)
    requires n <= |body|
    decreases |body|
  {
    var k := S.LineLen(body);
    if n == 0 then false
    else if n < k then body[0] == ':' && p.Empty() && n <= remaining < k
    else if k > remaining || body[k - 1] != '\n' then false
    else
      match S.ReadLine(S.TrimRight(body[..k]), p, remaining - k)
      case Yield(_) => false
      case Continue(p', left) => TornComment(body[k..], n - k, p', left)
  }

  predicate TornStream(w: Wire, l: Latch, body: string, n: nat, e2: S.ReadErr)
    requires n <= |body|
    decreases |body|
  {
    var whole := S.Next(body, e2);
    if whole.Event? && |body| - |whole.rest| <= n then
      match Interpret(w, l, whole.ev)
      case Emit(_, l') => TornStream(w, l', whole.rest, n - (|body| - |whole.rest|), e2)
      case Skip(l') => TornStream(w, l', whole.rest, n - (|body| - |whole.rest|), e2)
      case _ => false
    else TornComment(body, n, S.NOTHING, S.MAX_EVENT)
  }

  lemma {:induction false} TornCommentIs(body: string, n: nat, e1: S.ReadErr, e2: S.ReadErr, p: S.Partial, remaining: nat)
    requires n <= |body| && e2 != S.TooLarge && S.EarlyFrom(body, n, p, remaining).None?
    ensures TornComment(body, n, p, remaining) <==>
              (S.NextFrom(body, e2, p, remaining) == S.Stop(S.TooLarge) &&
               S.NextFrom(body[..n], e1, p, remaining) == S.Event(S.KEEPALIVE, ""))
    decreases |body|, 1
  {
    if 0 < n < S.LineLen(body) {
      TornLineIs(body, n, e1, e2, p, remaining);
    } else if 0 < n {
      TornPastLine(body, body[..n], n, e1, e2, p, remaining);
    }
  }

  lemma {:induction false} TornPastLine(body: string, cut: string, n: nat, e1: S.ReadErr, e2: S.ReadErr, p: S.Partial, remaining: nat)
    requires e2 != S.TooLarge && 0 < S.LineLen(body) <= n <= |body| && cut == body[..n]
    requires S.EarlyFrom(body, n, p, remaining).None?
    ensures TornComment(body, n, p, remaining) <==>
              (S.NextFrom(body, e2, p, remaining) == S.Stop(S.TooLarge) &&
               S.NextFrom(cut, e1, p, remaining) == S.Event(S.KEEPALIVE, ""))
    decreases |body|, 0
  {
    var k := S.LineLen(body);
    S.WholeLine(body, n);
    S.LineEnd(body);
    S.Slices(body, k, n);
    assert S.LineLen(cut) == k && cut[..k] == body[..k];
    if k <= remaining {
      var on := S.ReadLine(S.TrimRight(body[..k]), p, remaining - k);
      if on.Continue? && body[k - 1] == '\n' {
        TornCommentIs(body[k..], n - k, e1, e2, on.p, on.remaining);
      }
    }
  }

  lemma TornLineIs(body: string, n: nat, e1: S.ReadErr, e2: S.ReadErr, p: S.Partial, remaining: nat)
    requires e2 != S.TooLarge && 0 < n < S.LineLen(body) && S.EarlyFrom(body, n, p, remaining).None?
    ensures TornComment(body, n, p, remaining) <==>
              (S.NextFrom(body, e2, p, remaining) == S.Stop(S.TooLarge) &&
               S.NextFrom(body[..n], e1, p, remaining) == S.Event(S.KEEPALIVE, ""))
  {
    S.TornLine(body, n);
    assert body[..n][..n] == body[..n];
    var k := S.LineLen(body);
    if k <= remaining && S.ReadLine(S.TrimRight(body[..k]), p, remaining - k).Continue? {
      assert body[0] == ':' ==> !p.Empty();
    }
  }

  function Chunks(w: Wire, l: Latch, body: string, endErr: S.ReadErr, env: Env): seq<Chunk> {
    Deliver(w, l, body, endErr, env).0
  }

  /** Keepalives included, what a cut body delivers is a prefix exactly when the cut does not fall
      inside an oversized comment line. */
  lemma {:induction false} PrefixUnlessTorn(w: Wire, l: Latch, body: string, n: nat, e1: S.ReadErr, e2: S.ReadErr, env: Env)
    requires n <= |body| && !l.saw && e1 != S.TooLarge && e2 != S.TooLarge && Early(w, l, body, n, e2).None?
    requires var m := MarkerEnd(w, l, body, e2); m.None? || n < m.value
    ensures Chunks(w, l, body[..n], e1, env) <= Chunks(w, l, body, e2, env) <==> !TornStream(w, l, body, n, e2)
    decreases |body|, 1
  {
    if ClosedBy(body, n, e2) {
      var ev, rest, n' := EventBeforeCut(body, n, e1, e2);
      PrefixClosed(w, l, body[..n], body, ev, n', rest, e1, e2, env);
    } else {
      S.CutNext(body, n, e1, e2, S.NOTHING, S.MAX_EVENT);
      PrefixWithinEvent(w, l, body[..n], body, e1, e2, env);
      TornOpen(w, l, body, n, e1, e2);
    }
  }

  lemma TornOpen(w: Wire, l: Latch, body: string, n: nat, e1: S.ReadErr, e2: S.ReadErr)
    requires n <= |body| && e2 != S.TooLarge && S.EarlyFrom(body, n, S.NOTHING, S.MAX_EVENT).None?
    requires !ClosedBy(body, n, e2)
    ensures TornStream(w, l, body, n, e2) <==>
              (S.Next(body, e2) == S.Stop(S.TooLarge) && S.Next(body[..n], e1) == S.Event(S.KEEPALIVE, ""))
  {
    TornCommentIs(body, n, e1, e2, S.NOTHING, S.MAX_EVENT);
  }

  lemma {:induction false} PrefixClosed(w: Wire, l: Latch, cut: string, body: string, ev: S.SSEEvent, n: nat, rest: string,
                                        e1: S.ReadErr, e2: S.ReadErr, env: Env)
    requires S.Next(body, e2) == S.Event(ev, rest) && |rest| < |body|
    requires n <= |rest| && !l.saw && S.Next(cut, e1) == S.Event(ev, rest[..n])
    requires var r := Interpret(w, l, ev); r.Emit? || r.Skip? ==> Early(w, r.l, rest, n, e2).None?
    requires var m := MarkerEnd(w, l, body, e2); m.None? || n + |body| - |rest| < m.value
    requires e1 != S.TooLarge && e2 != S.TooLarge && n + |body| - |rest| <= |body|
    ensures Chunks(w, l, cut, e1, env) <= Chunks(w, l, body, e2, env) <==> !TornStream(w, l, body, n + |body| - |rest|, e2)
    decreases |body|, 0
  {
    var r := Interpret(w, l, ev);
    SawOnlyByMarker(w, l, ev);
    if r.Emit? || r.Skip? { PrefixUnlessTorn(w, r.l, rest, n, e1, e2, env); }
    if r.Emit? { SameHead(r.c, Chunks(w, r.l, rest[..n], e1, env), Chunks(w, r.l, rest, e2, env)); }
  }

  lemma SameHead(c: Chunk, a: seq<Chunk>, b: seq<Chunk>)
    ensures [c] + a <= [c] + b <==> a <= b
  {
    assert ([c] + a)[1..] == a && ([c] + b)[1..] == b;
    if [c] + a <= [c] + b {
      forall i | 0 <= i < |a| ensures a[i] == b[i] { assert ([c] + a)[i + 1] == ([c] + b)[i + 1]; }
    }
  }

  lemma PrefixWithinEvent(w: Wire, l: Latch, cut: string, body: string, e1: S.ReadErr, e2: S.ReadErr, env: Env)
    requires !l.saw && e1 != S.TooLarge && e2 != S.TooLarge
    requires
      || S.Next(cut, e1) == S.Stop(e1)
      || (S.Next(body, e2) == S.Next(cut, e1) == S.Stop(S.TooLarge))
      || (S.Next(cut, e1) == S.Event(S.KEEPALIVE, "") &&
          (S.Next(body, e2) == S.Stop(S.TooLarge) || (S.Next(body, e2).Event? && S.Next(body, e2).ev == S.KEEPALIVE)))
    ensures Chunks(w, l, cut, e1, env) <= Chunks(w, l, body, e2, env) <==>
            !(S.Next(body, e2) == S.Stop(S.TooLarge) && S.Next(cut, e1) == S.Event(S.KEEPALIVE, ""))
  {
    assert S.NextFrom("", e1, S.NOTHING, S.MAX_EVENT) == S.Stop(e1);
    var c := Chunks(w, l, cut, e1, env);
    if S.Next(cut, e1).Stop? {
      assert c == [];
    } else {
      assert Chunks(w, l, "", e1, env) == [];
      assert c == [Keepalive] + [] == [Keepalive];
      var n := S.Next(body, e2);
      if n.Event? {
        var rest := Chunks(w, l, n.rest, e2, env);
        assert Chunks(w, l, body, e2, env) == [Keepalive] + rest;
      } else {
        assert Chunks(w, l, body, e2, env) == [];
      }
    }
  }

  /** One comment line, a byte over the budget. */
  function OverlongComment(): string { seq(S.MAX_EVENT + 1, _ => ':') }

  /** Cut after its first byte, it delivers a keepalive that the whole body does not. */
  lemma TornExample(usageOf: string -> Option<Usage>, env: Env)
    ensures var w := OpenAI(usageOf);
            !(Chunks(w, Fresh(""), OverlongComment()[..1], S.EOF, env) <= Chunks(w, Fresh(""), OverlongComment(), S.EOF, env))
  {
    var body := OverlongComment();
    assert body + "" == body;
    S.LineLenSplit(body, "");
    assert S.LineLen(body) == S.MAX_EVENT + 1;
    assert S.Next(body, S.EOF) == S.Stop(S.TooLarge);
    assert TornComment(body, 1, S.NOTHING, S.MAX_EVENT);
    assert TornStream(OpenAI(usageOf), Fresh(""), body, 1, S.EOF);
    PrefixUnlessTorn(OpenAI(usageOf), Fresh(""), body, 1, S.EOF, S.EOF, env);
  }
}
