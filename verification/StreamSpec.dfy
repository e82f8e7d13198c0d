/** The three stream readers by value: how each wire turns events into chunks, and what it takes
    for the end of a body. JSON decoding is a parameter of each wire. */
module StreamSpec {
  import opened Common
  import S = SseSpec

  datatype Usage = Usage(prompt: int, completion: int, total: int)

  datatype Chunk =
    | Keepalive
    | Raw(data: string, usage: Option<Usage>)
    | Translated(id: string, model: string, role: bool, text: string, finish: string, usage: Option<Usage>)

  datatype Why = OversizedEvent | ReadFailed | BadEvent

  datatype Term = Complete | Truncated | Failed(cause: ErrorClass, why: Why)

  // ----- the decoded payloads each adapter looks at

  datatype StartMessage = StartMessage(id: string, model: string, inputTokens: Option<int>)
  datatype Delta = Delta(typ: string, text: string, stopReason: string)
  datatype AnthropicPayload = AnthropicPayload(typ: string, message: Option<StartMessage>, delta: Option<Delta>,
                                               outputTokens: Option<int>)
  const EMPTY_PAYLOAD := AnthropicPayload("", None, None, None)

  datatype Candidate = Candidate(text: string, finishReason: string)
  datatype GeminiPayload = GeminiPayload(error: Option<ErrorClass>, candidates: seq<Candidate>, modelVersion: string,
                                         usage: Option<Usage>)

  datatype Wire =
    | OpenAI(usageOf: string -> Option<Usage>)
    | Anthropic(decodeA: string -> Option<AnthropicPayload>)
    | Gemini(decodeG: string -> Option<GeminiPayload>, streamId: string)

  /** What a reader carries from event to event. saw is the provider's own sign of completeness. */
  datatype Latch = Latch(saw: bool, id: string, model: string, input: Option<int>, output: Option<int>, sentRole: bool)

  function Fresh(model: string): Latch { Latch(false, "", model, None, None, false) }

  datatype Reaction = Emit(c: Chunk, l: Latch) | Skip(l: Latch) | Finish(l: Latch) | Fail(t: Term)

  function ReactOpenAI(usageOf: string -> Option<Usage>, l: Latch, ev: S.SSEEvent): Reaction {
    if !ev.hasData then Skip(l)
    else if ev.data == "[DONE]" then Finish(l.(saw := true))
    else Emit(Raw(ev.data, usageOf(ev.data)), l)
  }

  /** Both token halves, once both have arrived. */
  function TotalUsage(l: Latch): Option<Usage> {
    if l.input.None? || l.output.None? then None
    else Some(Usage(l.input.value, l.output.value, l.input.value + l.output.value))
  }

  function StartLatch(l: Latch, m: Option<StartMessage>): Latch {
    if m.None? then l
    else l.(id := m.value.id,
            model := if m.value.model != "" then m.value.model else l.model,
            input := if m.value.inputTokens.Some? then m.value.inputTokens else l.input)
  }

  function Translate(l: Latch, name: string, p: AnthropicPayload): Reaction {
    if name == "ping" then Emit(Keepalive, l)
    else if name == "message_start" then
      var l' := StartLatch(l, p.message);
      Emit(Translated(l'.id, l'.model, true, "", "", None), l')
    else if name == "content_block_delta" then
      if p.delta.None? || p.delta.value.typ != "text_delta" then Skip(l)
      else Emit(Translated(l.id, l.model, false, p.delta.value.text, "", None), l)
    else if name == "message_delta" then
      var l' := if p.outputTokens.Some? then l.(output := p.outputTokens) else l;
      Emit(Translated(l'.id, l'.model, false, "", if p.delta.Some? then p.delta.value.stopReason else "", TotalUsage(l')), l')
    else if name == "message_stop" then Finish(l.(saw := true))
    else Skip(l)
  }

  function ReactAnthropic(decode: string -> Option<AnthropicPayload>, l: Latch, ev: S.SSEEvent): Reaction {
    var payload := if ev.data != "" then decode(ev.data) else Some(EMPTY_PAYLOAD);
    if payload.None? then Fail(Failed(Upstream, BadEvent))
    else Translate(l, if ev.name == "" then payload.value.typ else ev.name, payload.value)
  }

  function ReactGemini(decode: string -> Option<GeminiPayload>, streamId: string, l: Latch, ev: S.SSEEvent): Reaction {
    if !ev.hasData then Skip(l)
    else match decode(ev.data)
      case None => Fail(Failed(Upstream, BadEvent))
      case Some(p) =>
        if p.error.Some? then Fail(Failed(p.error.value, BadEvent))
        else
          var first := if p.candidates != [] then p.candidates[0] else Candidate("", "");
          Emit(Translated(streamId, if p.modelVersion != "" then p.modelVersion else l.model, !l.sentRole,
                          first.text, first.finishReason, p.usage),
               l.(saw := l.saw || first.finishReason != "", sentRole := true))
  }

  function React(w: Wire, l: Latch, ev: S.SSEEvent): Reaction {
    match w
    case OpenAI(usageOf) => ReactOpenAI(usageOf, l, ev)
    case Anthropic(decode) => ReactAnthropic(decode, l, ev)
    case Gemini(decode, streamId) => ReactGemini(decode, streamId, l, ev)
  }

  /** A comment line is passed on as a sign of life; anything else is the wire's to interpret. */
  function Interpret(w: Wire, l: Latch, ev: S.SSEEvent): Reaction {
    if ev.keepalive then Emit(Keepalive, l) else React(w, l, ev)
  }

  /** What explains a failed read: the request's context, and whether Close was called. */
  datatype CtxErr = Live | Expired | Cancelled
  datatype Env = Env(ctx: CtxErr, userClosed: bool)

  function RecvError(saw: bool, err: S.ReadErr, env: Env): Term {
    if err == S.EOF then (if saw then Complete else Truncated)
    else if err == S.TooLarge then Failed(Upstream, OversizedEvent)
    else if err == S.Deadline || env.ctx == Expired then Failed(Timeout, ReadFailed)
    else if err == S.Canceled || env.ctx == Cancelled then Failed(Canceled, ReadFailed)
    else if env.userClosed then Truncated
    else Failed(Upstream, ReadFailed)
  }

  // ----- one Recv, and all of them

  datatype Recv = Got(c: Chunk, l: Latch, rest: string) | Over(t: Term)

  function RecvFrom(w: Wire, l: Latch, rest: string, endErr: S.ReadErr, env: Env): Recv
    decreases |rest|
  {
    match S.Next(rest, endErr)
    case Stop(err) => Over(RecvError(l.saw, err, env))
    case Event(ev, rest') =>
      match Interpret(w, l, ev)
      case Emit(c, l') => Got(c, l', rest')
      case Skip(l') => RecvFrom(w, l', rest', endErr, env)
      case Finish(_) => Over(Complete)
      case Fail(t) => Over(t)
  }

  /** Every chunk of a body, in order, and how the stream ended. */
  function Deliver(w: Wire, l: Latch, rest: string, endErr: S.ReadErr, env: Env): (seq<Chunk>, Term)
    decreases |rest|
  {
    match S.Next(rest, endErr)
    case Stop(err) => ([], RecvError(l.saw, err, env))
    case Event(ev, rest') =>
      match Interpret(w, l, ev)
      case Emit(c, l') => Then(c, Deliver(w, l', rest', endErr, env))
      case Skip(l') => Deliver(w, l', rest', endErr, env)
      case Finish(_) => ([], Complete)
      case Fail(t) => ([], t)
  }

  function Then(c: Chunk, all: (seq<Chunk>, Term)): (seq<Chunk>, Term) { ([c] + all.0, all.1) }

  /** Calling Recv until it ends yields Deliver's chunks and its end. */
  lemma {:induction false} DeliverIsRecvs(w: Wire, l: Latch, rest: string, endErr: S.ReadErr, env: Env)
    ensures match RecvFrom(w, l, rest, endErr, env)
            case Got(c, l', rest') => |rest'| < |rest| && Deliver(w, l, rest, endErr, env) == Then(c, Deliver(w, l', rest', endErr, env))
            case Over(t) => Deliver(w, l, rest, endErr, env) == ([], t)
    decreases |rest|
  {
    var n := S.Next(rest, endErr);
    if n.Event? {
      var r := Interpret(w, l, n.ev);
      if r.Skip? { DeliverIsRecvs(w, r.l, n.rest, endErr, env); }
    }
  }
}
