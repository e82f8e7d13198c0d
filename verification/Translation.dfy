/** What the three wires' events mean, without a reader: each chunk is read off the events up to its
    own. The readers, which carry a latch from event to event, deliver exactly these chunks. */
module Translation {
  import opened Common
  import S = SseSpec
  import opened StreamSpec

  type Events = seq<S.SSEEvent>

  /** Every event of a body, in order. */
  function EventsOf(rest: string, endErr: S.ReadErr): Events
    decreases |rest|
  {
    match S.Next(rest, endErr)
    case Stop(_) => []
    case Event(ev, rest') => [ev] + EventsOf(rest', endErr)
  }

  // ----- Anthropic events

  type DecodeA = string -> Option<AnthropicPayload>

  function PayloadA(decode: DecodeA, ev: S.SSEEvent): Option<AnthropicPayload> {
    if ev.data == "" then Some(EMPTY_PAYLOAD) else decode(ev.data)
  }

  /** The type is the event's name, or the payload's own where the event has none. */
  predicate Is(decode: DecodeA, ev: S.SSEEvent, kind: string) {
    !ev.keepalive && PayloadA(decode, ev).Some? && kind == if ev.name != "" then ev.name else PayloadA(decode, ev).value.typ
  }

  /** The message a message_start carries, if ev is one and carries one. */
  function Started(decode: DecodeA, ev: S.SSEEvent): Option<StartMessage> {
    if Is(decode, ev, "message_start") then PayloadA(decode, ev).value.message else None
  }

  /** The output count a message_delta carries, if ev is one and carries one. */
  function Counted(decode: DecodeA, ev: S.SSEEvent): Option<int> {
    if Is(decode, ev, "message_delta") then PayloadA(decode, ev).value.outputTokens else None
  }

  /** The latest input count a message_start reported. */
  function LatestInput(decode: DecodeA, evs: Events): Option<int> {
    if evs == [] then None
    else
      var m := Started(decode, evs[|evs| - 1]);
      if m.Some? && m.value.inputTokens.Some? then m.value.inputTokens else LatestInput(decode, evs[..|evs| - 1])
  }

  /** The latest output count a message_delta reported. */
  function LatestOutput(decode: DecodeA, evs: Events): Option<int> {
    if evs == [] then None
    else
      var n := Counted(decode, evs[|evs| - 1]);
      if n.Some? then n else LatestOutput(decode, evs[..|evs| - 1])
  }

  function LatestId(decode: DecodeA, evs: Events): string {
    if evs == [] then ""
    else
      var m := Started(decode, evs[|evs| - 1]);
      if m.Some? then m.value.id else LatestId(decode, evs[..|evs| - 1])
  }

  /** The latest model a message_start named, or the one asked for. */
  function LatestModel(decode: DecodeA, asked: string, evs: Events): string {
    if evs == [] then asked
    else
      var m := Started(decode, evs[|evs| - 1]);
      if m.Some? && m.value.model != "" then m.value.model else LatestModel(decode, asked, evs[..|evs| - 1])
  }

  /** What the last of evs means. */
  function MeansA(decode: DecodeA, asked: string, evs: Events): seq<Chunk>
    requires evs != []
  {
    var ev, p := evs[|evs| - 1], PayloadA(decode, evs[|evs| - 1]);
    var id, model := LatestId(decode, evs), LatestModel(decode, asked, evs);
    if p.None? then []
    else if Is(decode, ev, "ping") then [Keepalive]
    else if Is(decode, ev, "message_start") then [Translated(id, model, true, "", "", None)]
    else if Is(decode, ev, "content_block_delta") && p.value.delta.Some? && p.value.delta.value.typ == "text_delta" then
      [Translated(id, model, false, p.value.delta.value.text, "", None)]
    else if Is(decode, ev, "message_delta") then
      var input, output := LatestInput(decode, evs), LatestOutput(decode, evs);
      [Translated(id, model, false, "", if p.value.delta.Some? then p.value.delta.value.stopReason else "",
                  if input.Some? && output.Some? then Some(Usage(input.value, output.value, input.value + output.value)) else None)]
    else []
  }

  // ----- Gemini events

  type DecodeG = string -> Option<GeminiPayload>

  predicate GoodG(decode: DecodeG, ev: S.SSEEvent) {
    !ev.keepalive && ev.hasData && decode(ev.data).Some? && decode(ev.data).value.error.None?
  }

  /** The first chunk of an answer opens the assistant's turn. */
  predicate FirstG(decode: DecodeG, evs: Events) {
    forall i :: 0 <= i < |evs| - 1 ==> !GoodG(decode, evs[i])
  }

  function MeansG(decode: DecodeG, id: string, asked: string, evs: Events): seq<Chunk>
    requires evs != []
  {
    var ev := evs[|evs| - 1];
    if !GoodG(decode, ev) then []
    else
      var p := decode(ev.data).value;
      [Translated(id, if p.modelVersion == "" then asked else p.modelVersion, FirstG(decode, evs),
                  if p.candidates == [] then "" else p.candidates[0].text,
                  if p.candidates == [] then "" else p.candidates[0].finishReason, p.usage)]
  }

  // ----- all of them

  /** The chunk the last of evs brings, if it brings one. */
  function Means(w: Wire, asked: string, evs: Events): seq<Chunk>
    requires evs != []
  {
    var ev := evs[|evs| - 1];
    if ev.keepalive then [Keepalive]
    else match w
      case OpenAI(usageOf) => if ev.hasData then [Raw(ev.data, usageOf(ev.data))] else []
      case Anthropic(decode) => MeansA(decode, asked, evs)
      case Gemini(decode, id) => MeansG(decode, id, asked, evs)
  }

  /** Nothing is read behind ev: the stream's own sign of its end, or an event that is no answer. */
  predicate EndsAt(w: Wire, ev: S.SSEEvent) {
    !ev.keepalive &&
    match w
    case OpenAI(_) => ev.hasData && ev.data == "[DONE]"
    case Anthropic(decode) => PayloadA(decode, ev).None? || Is(decode, ev, "message_stop")
    case Gemini(decode, _) => ev.hasData && (decode(ev.data).None? || decode(ev.data).value.error.Some?)
  }

  /** The events that are read as part of the answer. */
  function Answering(w: Wire, evs: Events): (out: Events)
    ensures out <= evs
  {
    if evs == [] || EndsAt(w, evs[0]) then [] else [evs[0]] + Answering(w, evs[1..])
  }

  /** What each of evs means. */
  function Meanings(w: Wire, asked: string, evs: Events): seq<seq<Chunk>> {
    seq(|evs|, i requires 0 <= i < |evs| => Means(w, asked, evs[..i + 1]))
  }

  function Concat(ms: seq<seq<Chunk>>): seq<Chunk> { if ms == [] then [] else ms[0] + Concat(ms[1..]) }

  /** The chunks of an answer: what its events mean, one after another. */
  function AllMeant(w: Wire, asked: string, evs: Events): seq<Chunk> { Concat(Meanings(w, asked, Answering(w, evs))) }

  lemma {:induction false} ConcatAppend(ms: seq<seq<Chunk>>, m: seq<Chunk>)
    ensures Concat(ms + [m]) == Concat(ms) + m
  {
    if ms == [] {
      assert [] + [m] == [m] && [m][1..] == [] && m + [] == m && [] + m == m;
    } else {
      ConcatAppend(ms[1..], m);
      assert (ms + [m])[1..] == ms[1..] + [m];
    }
  }

  lemma {:induction false} ConcatAt(ms: seq<seq<Chunk>>, n: nat)
    requires n < |ms|
    ensures Concat(ms[..n]) + ms[n] <= Concat(ms)
  {
    if n > 0 {
      ConcatAt(ms[1..], n - 1);
      assert ms[..n][1..] == ms[1..][..n - 1];
      assert (ms[0] + Concat(ms[1..][..n - 1])) + ms[n] == ms[0] + (Concat(ms[1..][..n - 1]) + ms[n]);
    }
  }

  lemma {:induction false} ConcatFrom(ms: seq<seq<Chunk>>, c: Chunk) returns (n: nat)
    requires c in Concat(ms)
    ensures n < |ms| && c in ms[n]
  {
    if c in ms[0] {
      n := 0;
    } else {
      var m := ConcatFrom(ms[1..], c);
      n := m + 1;
    }
  }

  // ----- the latch holds what the events so far said

  ghost predicate Holds(w: Wire, asked: string, done: Events, l: Latch) {
    match w
    case OpenAI(_) => true
    case Anthropic(decode) =>
      && l.id == LatestId(decode, done) && l.model == LatestModel(decode, asked, done)
      && l.input == LatestInput(decode, done) && l.output == LatestOutput(decode, done)
    case Gemini(decode, _) => l.model == asked && (l.sentRole <==> exists i :: 0 <= i < |done| && GoodG(decode, done[i]))
  }

  lemma OneMore(decode: DecodeA, asked: string, done: Events, ev: S.SSEEvent)
    ensures var m, n := Started(decode, ev), Counted(decode, ev);
            && LatestId(decode, done + [ev]) == (if m.Some? then m.value.id else LatestId(decode, done))
            && LatestModel(decode, asked, done + [ev])
               == (if m.Some? && m.value.model != "" then m.value.model else LatestModel(decode, asked, done))
            && LatestInput(decode, done + [ev])
               == (if m.Some? && m.value.inputTokens.Some? then m.value.inputTokens else LatestInput(decode, done))
            && LatestOutput(decode, done + [ev]) == (if n.Some? then n else LatestOutput(decode, done))
  {
    assert (done + [ev])[..|done|] == done;
  }

  /** One event: the reader reacts with the chunk it means, or ends where nothing more is read. */
  predicate Agrees(w: Wire, asked: string, evs: Events, r: Reaction)
    requires evs != []
  {
    match r
    case Emit(c, _) => !EndsAt(w, evs[|evs| - 1]) && Means(w, asked, evs) == [c]
    case Skip(_) => !EndsAt(w, evs[|evs| - 1]) && Means(w, asked, evs) == []
    case _ => EndsAt(w, evs[|evs| - 1])
  }

  /** What an event does to the latch, if the stream goes on. */
  lemma Latches(decode: DecodeA, l: Latch, ev: S.SSEEvent)
    requires !ev.keepalive
    ensures var r, m, n := ReactAnthropic(decode, l, ev), Started(decode, ev), Counted(decode, ev);
            r.Emit? || r.Skip? ==>
              && r.l.id == (if m.Some? then m.value.id else l.id)
              && r.l.model == (if m.Some? && m.value.model != "" then m.value.model else l.model)
              && r.l.input == (if m.Some? && m.value.inputTokens.Some? then m.value.inputTokens else l.input)
              && r.l.output == (if n.Some? then n else l.output)
  {
  }

  lemma LatchesA(decode: DecodeA, asked: string, done: Events, l: Latch, ev: S.SSEEvent)
    requires Holds(Anthropic(decode), asked, done, l) && !ev.keepalive
    ensures var r := ReactAnthropic(decode, l, ev);
            r.Emit? || r.Skip? ==> Holds(Anthropic(decode), asked, done + [ev], r.l)
  {
    OneMore(decode, asked, done, ev);
    Latches(decode, l, ev);
  }

  lemma ReactsA(decode: DecodeA, asked: string, done: Events, l: Latch, ev: S.SSEEvent)
    requires Holds(Anthropic(decode), asked, done, l) && !ev.keepalive
    ensures var r := ReactAnthropic(decode, l, ev);
            && Agrees(Anthropic(decode), asked, done + [ev], r)
            && (r.Emit? || r.Skip? ==> Holds(Anthropic(decode), asked, done + [ev], r.l))
  {
    LatchesA(decode, asked, done, l, ev);
    assert (done + [ev])[|done + [ev]| - 1] == ev;
  }

  lemma ReactsG(decode: DecodeG, id: string, asked: string, done: Events, l: Latch, ev: S.SSEEvent)
    requires Holds(Gemini(decode, id), asked, done, l) && !ev.keepalive
    ensures var r := ReactGemini(decode, id, l, ev);
            && Agrees(Gemini(decode, id), asked, done + [ev], r)
            && (r.Emit? || r.Skip? ==> Holds(Gemini(decode, id), asked, done + [ev], r.l))
  {
    var evs := done + [ev];
    assert forall i :: 0 <= i < |done| ==> evs[i] == done[i];
    if GoodG(decode, ev) { assert evs[|done|] == ev; }
  }

  lemma Reacts(w: Wire, asked: string, done: Events, l: Latch, ev: S.SSEEvent)
    requires Holds(w, asked, done, l)
    ensures var r := Interpret(w, l, ev);
            Agrees(w, asked, done + [ev], r) && (r.Emit? || r.Skip? ==> Holds(w, asked, done + [ev], r.l))
  {
    if ev.keepalive {
      if w.Anthropic? { OneMore(w.decodeA, asked, done, ev); }
      if w.Gemini? {
        assert forall i :: 0 <= i < |done| ==> (done + [ev])[i] == done[i];
      }
    } else {
      match w
      case OpenAI(_) =>
      case Anthropic(decode) => ReactsA(decode, asked, done, l, ev);
      case Gemini(decode, id) => ReactsG(decode, id, asked, done, l, ev);
    }
  }

  lemma MeaningsAppend(w: Wire, asked: string, done: Events, ev: S.SSEEvent)
    ensures Meanings(w, asked, done + [ev]) == Meanings(w, asked, done) + [Means(w, asked, done + [ev])]
  {
    var evs := done + [ev];
    assert evs[..|evs|] == evs;
    forall i | 0 <= i < |done| ensures Meanings(w, asked, evs)[i] == Meanings(w, asked, done)[i] {
      assert evs[..i + 1] == done[..i + 1];
    }
  }

  /** What the chunks so far come to. */
  function Sofar(w: Wire, asked: string, done: Events): seq<Chunk> { Concat(Meanings(w, asked, done)) }

  lemma SofarAppend(w: Wire, asked: string, done: Events, ev: S.SSEEvent, ahead: seq<Chunk>)
    ensures Sofar(w, asked, done + [ev]) + ahead == Sofar(w, asked, done) + (Means(w, asked, done + [ev]) + ahead)
  {
    MeaningsAppend(w, asked, done, ev);
    ConcatAppend(Meanings(w, asked, done), Means(w, asked, done + [ev]));
  }

  lemma PutTogether(done: Events, ev: S.SSEEvent, later: Events)
    ensures (done + [ev]) + later == done + ([ev] + later)
  {
  }

  /** Chunks so far and those still to come are what the events so far and to come mean. */
  lemma {:induction false} DeliversFrom(w: Wire, asked: string, done: Events, l: Latch, rest: string, endErr: S.ReadErr, env: Env)
    requires Holds(w, asked, done, l)
    ensures Sofar(w, asked, done) + Deliver(w, l, rest, endErr, env).0
         == Sofar(w, asked, done + Answering(w, EventsOf(rest, endErr)))
    decreases |rest|
  {
    var n := S.Next(rest, endErr);
    if n.Event? && !EndsAt(w, n.ev) {
      Reacts(w, asked, done, l, n.ev);
      var r := Interpret(w, l, n.ev);
      DeliversFrom(w, asked, done + [n.ev], r.l, n.rest, endErr, env);
      SofarAppend(w, asked, done, n.ev, Deliver(w, r.l, n.rest, endErr, env).0);
      OneAnswered(w, n.ev, EventsOf(n.rest, endErr));
      PutTogether(done, n.ev, Answering(w, EventsOf(n.rest, endErr)));
      assert [] + Deliver(w, r.l, n.rest, endErr, env).0 == Deliver(w, r.l, n.rest, endErr, env).0;
    } else {
      if n.Event? { Reacts(w, asked, done, l, n.ev); }
      assert done + [] == done && Sofar(w, asked, done) + [] == Sofar(w, asked, done);
    }
  }

  lemma OneAnswered(w: Wire, ev: S.SSEEvent, later: Events)
    requires !EndsAt(w, ev)
    ensures Answering(w, [ev] + later) == [ev] + Answering(w, later)
  {
    assert ([ev] + later)[1..] == later;
  }

  /** A stream delivers, in order, what each of its events means given those before it. */
  lemma DeliversMeaning(w: Wire, asked: string, body: string, endErr: S.ReadErr, env: Env)
    ensures Deliver(w, Fresh(asked), body, endErr, env).0 == AllMeant(w, asked, EventsOf(body, endErr))
  {
    DeliversFrom(w, asked, [], Fresh(asked), body, endErr, env);
    var evs, cs := Answering(w, EventsOf(body, endErr)), Deliver(w, Fresh(asked), body, endErr, env).0;
    assert Meanings(w, asked, []) == [] && [] + evs == evs && [] + cs == cs;
  }

  // ----- usage on the Anthropic wire

  lemma CountsBefore(decode: DecodeA, asked: string, evs: Events, n: nat)
    requires n < |evs| && Is(decode, evs[n], "message_delta")
    ensures LatestInput(decode, evs[..n + 1]) == LatestInput(decode, evs[..n])
  {
    assert evs[..n + 1] == evs[..n] + [evs[n]];
    OneMore(decode, asked, evs[..n], evs[n]);
  }

  /** The last of evs reports usage only as a message_delta, of the latest counts. */
  lemma {:induction false} UsageOfOne(decode: DecodeA, asked: string, evs: Events, c: Chunk)
    requires evs != [] && c in Means(Anthropic(decode), asked, evs) && c.Translated? && c.usage.Some?
    ensures var u := c.usage.value;
            && Is(decode, evs[|evs| - 1], "message_delta")
            && Some(u.prompt) == LatestInput(decode, evs) && Some(u.completion) == LatestOutput(decode, evs)
            && u.total == u.prompt + u.completion
  {
  }

  /** Usage is reported by message_delta events alone: as prompt the latest input count a message_start
      gave before, as completion the latest output count a message_delta gave up to then, and their
      sum. */
  lemma UsageReported(decode: DecodeA, asked: string, body: string, endErr: S.ReadErr, env: Env, c: Chunk)
    requires c in Deliver(Anthropic(decode), Fresh(asked), body, endErr, env).0 && c.Translated? && c.usage.Some?
    ensures var evs, u := EventsOf(body, endErr), c.usage.value;
            exists n :: 0 <= n < |evs| && Is(decode, evs[n], "message_delta")
              && Some(u.prompt) == LatestInput(decode, evs[..n]) && Some(u.completion) == LatestOutput(decode, evs[..n + 1])
              && u.total == u.prompt + u.completion
  {
    var w, evs := Anthropic(decode), EventsOf(body, endErr);
    DeliversMeaning(w, asked, body, endErr, env);
    var read := Answering(w, evs);
    var n := ConcatFrom(Meanings(w, asked, read), c);
    assert read[..n + 1] == evs[..n + 1] && evs[..n + 1][n] == evs[n];
    UsageOfOne(decode, asked, evs[..n + 1], c);
    CountsBefore(decode, asked, evs, n);
  }

  lemma {:induction false} DeltaMeans(decode: DecodeA, asked: string, evs: Events)
    requires evs != [] && Is(decode, evs[|evs| - 1], "message_delta")
    ensures var m := Means(Anthropic(decode), asked, evs);
            |m| == 1 && m[0].Translated? && (m[0].usage.Some? <==> LatestInput(decode, evs).Some? && LatestOutput(decode, evs).Some?)
  {
  }

  /** And every message_delta read reports it exactly when both counts have been given. */
  lemma DeltaReports(decode: DecodeA, asked: string, body: string, endErr: S.ReadErr, env: Env, n: nat) returns (k: nat)
    requires n < |Answering(Anthropic(decode), EventsOf(body, endErr))| && Is(decode, EventsOf(body, endErr)[n], "message_delta")
    ensures var evs, cs := EventsOf(body, endErr), Deliver(Anthropic(decode), Fresh(asked), body, endErr, env).0;
            && k == |AllMeant(Anthropic(decode), asked, evs[..n])| < |cs| && cs[k].Translated?
            && (cs[k].usage.Some? <==> LatestInput(decode, evs[..n]).Some? && LatestOutput(decode, evs[..n + 1]).Some?)
  {
    var w, evs := Anthropic(decode), EventsOf(body, endErr);
    var read := Answering(w, evs);
    DeliversMeaning(w, asked, body, endErr, env);
    AnsweringPrefix(w, evs, n);
    assert read[..n + 1] == evs[..n + 1] && evs[..n + 1][n] == evs[n] && read[..n] == evs[..n];
    DeltaMeans(decode, asked, evs[..n + 1]);
    CountsBefore(decode, asked, evs, n);
    ChunkStands(w, asked, read, n, Means(w, asked, read[..n + 1])[0]);
    k := |Sofar(w, asked, read[..n])|;
  }

  lemma ChunkStands(w: Wire, asked: string, read: Events, n: nat, c: Chunk)
    requires n < |read| && Means(w, asked, read[..n + 1]) == [c]
    ensures var k := |Sofar(w, asked, read[..n])|; k < |Sofar(w, asked, read)| && Sofar(w, asked, read)[k] == c
  {
    MeaningsPrefix(w, asked, read, n);
    ConcatAt(Meanings(w, asked, read), n);
    var mine, all := Sofar(w, asked, read[..n]) + [c], Sofar(w, asked, read);
    assert mine <= all && all[|mine| - 1] == mine[|mine| - 1];
  }

  lemma {:induction false} AnsweringPrefix(w: Wire, evs: Events, n: nat)
    requires n < |Answering(w, evs)|
    ensures Answering(w, evs[..n]) == Answering(w, evs)[..n]
  {
    if n > 0 {
      AnsweringPrefix(w, evs[1..], n - 1);
      assert evs[..n][1..] == evs[1..][..n - 1];
    }
  }

  lemma MeaningsPrefix(w: Wire, asked: string, evs: Events, n: nat)
    requires n < |evs|
    ensures Meanings(w, asked, evs)[..n] == Meanings(w, asked, evs[..n])
  {
    forall i | 0 <= i < n ensures Meanings(w, asked, evs)[i] == Meanings(w, asked, evs[..n])[i] {
      assert evs[..i + 1] == evs[..n][..i + 1];
    }
  }

  // ----- how a stream ends

  /** What reading stops with, when no event ends the stream. */
  function StopOf(rest: string, endErr: S.ReadErr): S.ReadErr
    decreases |rest|
  {
    match S.Next(rest, endErr)
    case Stop(err) => err
    case Event(_, rest') => StopOf(rest', endErr)
  }

  /** The candidate gave a reason for its finish, which is how a Gemini stream says it is whole. */
  predicate GaveReason(decode: DecodeG, ev: S.SSEEvent) {
    GoodG(decode, ev) && decode(ev.data).value.candidates != [] && decode(ev.data).value.candidates[0].finishReason != ""
  }

  predicate Finished(w: Wire, evs: Events) {
    w.Gemini? && exists i :: 0 <= i < |evs| && GaveReason(w.decodeG, evs[i])
  }

  /** How the event that ends a stream ends it. */
  function EndedBy(w: Wire, ev: S.SSEEvent): Term {
    match w
    case OpenAI(_) => Complete
    case Anthropic(decode) => if PayloadA(decode, ev).Some? then Complete else Failed(Upstream, BadEvent)
    case Gemini(decode, _) =>
      if decode(ev.data).Some? && decode(ev.data).value.error.Some? then Failed(decode(ev.data).value.error.value, BadEvent)
      else Failed(Upstream, BadEvent)
  }

  /** The first event that ends the stream, if there is one. */
  function EndEvent(w: Wire, evs: Events): Option<S.SSEEvent> {
    if evs == [] then None else if EndsAt(w, evs[0]) then Some(evs[0]) else EndEvent(w, evs[1..])
  }

  predicate Broke(e: S.ReadErr) { e != S.EOF && e != S.TooLarge }

  predicate TimedOut(e: S.ReadErr, env: Env) { Broke(e) && (e == S.Deadline || env.ctx == Expired) }

  predicate CalledOff(e: S.ReadErr, env: Env) { Broke(e) && !TimedOut(e, env) && (e == S.Canceled || env.ctx == Cancelled) }

  /** The end of a body in which no event ended the stream. */
  predicate EndsFor(t: Term, e: S.ReadErr, whole: bool, env: Env) {
    && (t == Complete <==> e == S.EOF && whole)
    && (t == Truncated <==> (e == S.EOF && !whole) || (Broke(e) && !TimedOut(e, env) && !CalledOff(e, env) && env.userClosed))
    && (t == Failed(Upstream, OversizedEvent) <==> e == S.TooLarge)
    && (t == Failed(Timeout, ReadFailed) <==> TimedOut(e, env))
    && (t == Failed(Canceled, ReadFailed) <==> CalledOff(e, env))
    && (t == Failed(Upstream, ReadFailed) <==> Broke(e) && !TimedOut(e, env) && !CalledOff(e, env) && !env.userClosed)
  }

  lemma FinishedMore(w: Wire, done: Events, ev: S.SSEEvent)
    ensures Finished(w, done + [ev]) <==> Finished(w, done) || (w.Gemini? && GaveReason(w.decodeG, ev))
  {
    if w.Gemini? {
      assert forall i :: 0 <= i < |done| ==> (done + [ev])[i] == done[i];
      if GaveReason(w.decodeG, ev) { assert (done + [ev])[|done|] == ev; }
    }
  }

  lemma EventEnds(w: Wire, l: Latch, ev: S.SSEEvent)
    ensures var r := Interpret(w, l, ev);
            && (EndsAt(w, ev) <==> r.Finish? || r.Fail?)
            && (r.Finish? ==> EndedBy(w, ev) == Complete) && (r.Fail? ==> EndedBy(w, ev) == r.t)
            && (r.Emit? || r.Skip? ==> r.l.saw == (l.saw || (w.Gemini? && GaveReason(w.decodeG, ev))))
  {
  }

  lemma StopEnds(saw: bool, e: S.ReadErr, env: Env)
    ensures EndsFor(RecvError(saw, e, env), e, saw, env)
  {
  }

  lemma {:induction false} EndsFrom(w: Wire, done: Events, l: Latch, rest: string, endErr: S.ReadErr, env: Env)
    requires l.saw <==> Finished(w, done)
    ensures var evs, t := EventsOf(rest, endErr), Deliver(w, l, rest, endErr, env).1;
            match EndEvent(w, evs)
            case Some(ev) => t == EndedBy(w, ev)
            case None => EndsFor(t, StopOf(rest, endErr), Finished(w, done + evs), env)
    decreases |rest|
  {
    var n := S.Next(rest, endErr);
    if n.Stop? {
      assert done + [] == done;
      StopEnds(l.saw, n.err, env);
    } else {
      var r := Interpret(w, l, n.ev);
      EventEnds(w, l, n.ev);
      FinishedMore(w, done, n.ev);
      assert EventsOf(rest, endErr)[1..] == EventsOf(n.rest, endErr);
      if r.Emit? || r.Skip? {
        EndsFrom(w, done + [n.ev], r.l, n.rest, endErr, env);
        PutTogether(done, n.ev, EventsOf(n.rest, endErr));
      }
    }
  }

  /** How a stream ends, told from its events: by the first that ends it, or else by what stopped the
      reading and what the context was. */
  lemma HowItEnds(w: Wire, asked: string, body: string, endErr: S.ReadErr, env: Env)
    ensures var evs, t := EventsOf(body, endErr), Deliver(w, Fresh(asked), body, endErr, env).1;
            match EndEvent(w, evs)
            case Some(ev) => t == EndedBy(w, ev)
            case None => EndsFor(t, StopOf(body, endErr), Finished(w, evs), env)
  {
    EndsFrom(w, [], Fresh(asked), body, endErr, env);
    assert [] + EventsOf(body, endErr) == EventsOf(body, endErr);
  }
}
