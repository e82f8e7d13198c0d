/** The three stream readers as they are written. Each Recv is proved to return what
    StreamSpec.RecvFrom returns on the same bytes, and to repeat its terminal error for ever. */
module StreamReaders {
  import opened Common
  import S = SseSpec
  import opened StreamSpec
  import opened SseScanner

  /** internal/providers/openaiwire/stream.go */
  class OpenAIReader {
    const usageOf: string -> Option<Usage>
    const sse: SSEScanner
    var closed: bool
    var done: bool
    var sawDone: bool
    var termErr: Term

    constructor (usageOf: string -> Option<Usage>, body: Reader)
      ensures !closed && !done && Held() == Fresh("") && sse.br == body
    {
      this.usageOf := usageOf;
      sse := new SSEScanner(body);
      closed, done, sawDone, termErr := false, false, false, Truncated;
    }

    function Held(): Latch
      reads this
    {
      Fresh("").(saw := sawDone)
    }

    method Close()
      modifies `closed
      ensures closed
    {
      closed := true;
    }

    method Finish(t: Term)
      modifies `done, `termErr
      ensures done && termErr == t
    {
      done := true;
      termErr := t;
    }

    method Recv(env: Env) returns (r: Result<Chunk, Term>)
      modifies this, sse.br
      ensures old(done) ==> r == Err(old(termErr)) && done && termErr == old(termErr) && sse.br.rest == old(sse.br.rest)
      ensures !old(done) && old(closed) ==> r == Err(Truncated) && done && termErr == Truncated
      ensures !old(done) && !old(closed) ==>
                match RecvFrom(OpenAI(usageOf), old(Held()), old(sse.br.rest), sse.br.endErr, env)
                case Got(c, l, rest) => r == Ok(c) && Held() == l && sse.br.rest == rest && !done && !closed
                case Over(t) => r == Err(t) && done && termErr == t && closed
    {
      if done {
        return Err(termErr);
      }
      if closed {
        Finish(Truncated);
        return Err(termErr);
      }
      while true
        invariant !done && !closed
        invariant RecvFrom(OpenAI(usageOf), old(Held()), old(sse.br.rest), sse.br.endErr, env)
               == RecvFrom(OpenAI(usageOf), Held(), sse.br.rest, sse.br.endErr, env)
        decreases |sse.br.rest|
      {
        var n := sse.Next();
        if n.Stop? {
          Close();
          Finish(RecvErrorOf(n.err, env));
          return Err(termErr);
        }
        var ev := n.ev;
        if ev.keepalive {
          return Ok(Keepalive);
        }
        if !ev.hasData {
          continue;
        }
        if ev.data == "[DONE]" {
          sawDone := true;
          Close();
          Finish(Complete);
          return Err(Complete);
        }
        return Ok(Raw(ev.data, usageOf(ev.data)));
      }
    }

    function RecvErrorOf(err: S.ReadErr, env: Env): (t: Term)
      reads `sawDone
      ensures t == RecvError(sawDone, err, env)
    {
      if err == S.EOF then (if sawDone then Complete else Truncated)
      else if err == S.TooLarge then Failed(Upstream, OversizedEvent)
      else if err == S.Deadline || env.ctx == Expired then Failed(Timeout, ReadFailed)
      else if err == S.Canceled || env.ctx == Cancelled then Failed(Canceled, ReadFailed)
      else if env.userClosed then Truncated
      else Failed(Upstream, ReadFailed)
    }
  }

  /** internal/providers/gemini/stream.go */
  class GeminiReader {
    const decode: string -> Option<GeminiPayload>
    const id: string
    const model: string
    const sse: SSEScanner
    var closed: bool
    var done: bool
    var sawFinish: bool
    var sentRole: bool
    var termErr: Term

    constructor (decode: string -> Option<GeminiPayload>, id: string, model: string, body: Reader)
      ensures !closed && !done && Held() == Fresh(model) && sse.br == body
    {
      this.decode, this.id, this.model := decode, id, model;
      sse := new SSEScanner(body);
      closed, done, sawFinish, sentRole, termErr := false, false, false, false, Truncated;
    }

    function Held(): Latch
      reads this
    {
      Fresh(model).(saw := sawFinish, sentRole := sentRole)
    }

    method Close()
      modifies `closed
      ensures closed
    {
      closed := true;
    }

    method Finish(t: Term)
      modifies `done, `termErr
      ensures done && termErr == t
    {
      done := true;
      termErr := t;
    }

    /** One event to one chunk; latches the finish reason and announces the role once. */
    method TranslateEvent(data: string) returns (r: Result<Chunk, Term>)
      modifies `sawFinish, `sentRole
      ensures match ReactGemini(decode, id, old(Held()), S.SSEEvent("", data, true, false))
              case Emit(c, l) => r == Ok(c) && Held() == l
              case Fail(t) => r == Err(t)
              case _ => false
    {
      var p := decode(data);
      if p.None? {
        return Err(Failed(Upstream, BadEvent));
      }
      var payload := p.value;
      if payload.error.Some? {
        return Err(Failed(payload.error.value, BadEvent));
      }
      var role := !sentRole;
      sentRole := true;
      var text, finish := "", "";
      if payload.candidates != [] {
        text := payload.candidates[0].text;
        finish := payload.candidates[0].finishReason;
        if finish != "" {
          sawFinish := true;
        }
      }
      return Ok(Translated(id, if payload.modelVersion != "" then payload.modelVersion else model, role, text, finish, payload.usage));
    }

    method Recv(env: Env) returns (r: Result<Chunk, Term>)
      modifies this, sse.br
      ensures old(done) ==> r == Err(old(termErr)) && done && termErr == old(termErr) && sse.br.rest == old(sse.br.rest)
      ensures !old(done) && old(closed) ==> r == Err(Truncated) && done && termErr == Truncated
      ensures !old(done) && !old(closed) ==>
                match RecvFrom(Gemini(decode, id), old(Held()), old(sse.br.rest), sse.br.endErr, env)
                case Got(c, l, rest) => r == Ok(c) && Held() == l && sse.br.rest == rest && !done && !closed
                case Over(t) => r == Err(t) && done && termErr == t && closed
    {
      if done {
        return Err(termErr);
      }
      if closed {
        Finish(Truncated);
        return Err(termErr);
      }
      while true
        invariant !done && !closed && Held() == old(Held())
        invariant RecvFrom(Gemini(decode, id), old(Held()), old(sse.br.rest), sse.br.endErr, env)
               == RecvFrom(Gemini(decode, id), Held(), sse.br.rest, sse.br.endErr, env)
        decreases |sse.br.rest|
      {
        var n := sse.Next();
        if n.Stop? {
          Close();
          Finish(RecvErrorOf(n.err, env));
          return Err(termErr);
        }
        var ev := n.ev;
        if ev.keepalive {
          return Ok(Keepalive);
        }
        if !ev.hasData {
          continue;
        }
        r := TranslateEvent(ev.data);
        if r.Err? {
          Close();
          Finish(r.error);
          return Err(termErr);
        }
        return;
      }
    }

    function RecvErrorOf(err: S.ReadErr, env: Env): (t: Term)
      reads `sawFinish
      ensures t == RecvError(sawFinish, err, env)
    {
      if err == S.EOF then (if sawFinish then Complete else Truncated)
      else if err == S.TooLarge then Failed(Upstream, OversizedEvent)
      else if err == S.Deadline || env.ctx == Expired then Failed(Timeout, ReadFailed)
      else if err == S.Canceled || env.ctx == Cancelled then Failed(Canceled, ReadFailed)
      else if env.userClosed then Truncated
      else Failed(Upstream, ReadFailed)
    }
  }

  /** internal/providers/anthropic/stream.go */
  class AnthropicReader {
    const decode: string -> Option<AnthropicPayload>
    const sse: SSEScanner
    var closed: bool
    var done: bool
    var termErr: Term
    var sawStop: bool
    var id: string
    var model: string
    var inputTokens: int
    var outputTokens: int
    var haveInput: bool
    var haveOutput: bool

    constructor (decode: string -> Option<AnthropicPayload>, model: string, body: Reader)
      ensures !closed && !done && Held() == Fresh(model) && sse.br == body
    {
      this.decode, this.model := decode, model;
      sse := new SSEScanner(body);
      closed, done, termErr, sawStop, id := false, false, Truncated, false, "";
      inputTokens, outputTokens, haveInput, haveOutput := 0, 0, false, false;
    }

    function Held(): Latch
      reads this
    {
      Latch(sawStop, id, model, if haveInput then Some(inputTokens) else None,
            if haveOutput then Some(outputTokens) else None, false)
    }

    method Close()
      modifies `closed
      ensures closed
    {
      closed := true;
    }

    method Finish(t: Term)
      modifies `done, `termErr
      ensures done && termErr == t
    {
      done := true;
      termErr := t;
    }

    function Totals(): (u: Option<Usage>)
      reads this
      ensures u == TotalUsage(Held())
    {
      if !haveInput || !haveOutput then None
      else Some(Usage(inputTokens, outputTokens, inputTokens + outputTokens))
    }

    /** One event to at most one chunk: state is latched, structure is skipped. */
    method TranslateEvent(ev: S.SSEEvent) returns (r: Result<Option<Chunk>, Term>)
      modifies `sawStop, `id, `model, `inputTokens, `outputTokens, `haveInput, `haveOutput
      ensures match ReactAnthropic(decode, old(Held()), ev)
              case Emit(c, l) => r == Ok(Some(c)) && Held() == l
              case Skip(l) => r == Ok(None) && Held() == l
              case Finish(l) => r == Ok(None) && Held() == l && sawStop
              case Fail(t) => r == Err(t)
    {
      var payload := EMPTY_PAYLOAD;
      if ev.data != "" {
        var p := decode(ev.data);
        if p.None? {
          return Err(Failed(Upstream, BadEvent));
        }
        payload := p.value;
      }
      var name := ev.name;
      if name == "" {
        name := payload.typ;
      }
      if name == "ping" {
        return Ok(Some(Keepalive));
      } else if name == "message_start" {
        if payload.message.Some? {
          var m := payload.message.value;
          id := m.id;
          if m.model != "" {
            model := m.model;
          }
          if m.inputTokens.Some? {
            inputTokens := m.inputTokens.value;
            haveInput := true;
          }
        }
        return Ok(Some(Translated(id, model, true, "", "", None)));
      } else if name == "content_block_delta" {
        if payload.delta.None? || payload.delta.value.typ != "text_delta" {
          return Ok(None);
        }
        return Ok(Some(Translated(id, model, false, payload.delta.value.text, "", None)));
      } else if name == "message_delta" {
        if payload.outputTokens.Some? {
          outputTokens := payload.outputTokens.value;
          haveOutput := true;
        }
        var finish := "";
        if payload.delta.Some? {
          finish := payload.delta.value.stopReason;
        }
        return Ok(Some(Translated(id, model, false, "", finish, Totals())));
      } else if name == "message_stop" {
        sawStop := true;
        return Ok(None);
      }
      return Ok(None);
    }

    method Recv(env: Env) returns (r: Result<Chunk, Term>)
      requires sawStop ==> done
      modifies this, sse.br
      ensures sawStop ==> done
      ensures old(done) ==> r == Err(old(termErr)) && done && termErr == old(termErr) && sse.br.rest == old(sse.br.rest)
      ensures !old(done) && old(closed) ==> r == Err(Truncated) && done && termErr == Truncated
      ensures !old(done) && !old(closed) ==>
                match RecvFrom(Anthropic(decode), old(Held()), old(sse.br.rest), sse.br.endErr, env)
                case Got(c, l, rest) => r == Ok(c) && Held() == l && sse.br.rest == rest && !done && !closed
                case Over(t) => r == Err(t) && done && termErr == t && closed
    {
      if done {
        return Err(termErr);
      }
      if closed {
        Finish(Truncated);
        return Err(termErr);
      }
      while true
        invariant !done && !closed && !sawStop
        invariant RecvFrom(Anthropic(decode), old(Held()), old(sse.br.rest), sse.br.endErr, env)
               == RecvFrom(Anthropic(decode), Held(), sse.br.rest, sse.br.endErr, env)
        decreases |sse.br.rest|
      {
        var n := sse.Next();
        if n.Stop? {
          Close();
          Finish(RecvErrorOf(n.err, env));
          return Err(termErr);
        }
        var ev := n.ev;
        if ev.keepalive {
          return Ok(Keepalive);
        }
        ghost var l := Held();
        var t := TranslateEvent(ev);
        ReactionSaw(decode, l, ev);
        if t.Err? {
          Close();
          Finish(t.error);
          return Err(termErr);
        }
        if t.value.Some? {
          return Ok(t.value.value);
        }
        if sawStop {
          Close();
          Finish(Complete);
          return Err(Complete);
        }
      }
    }

    /** The context is asked before the closed flag, so a hang-up counts as truncation only if nothing else does. */
    function RecvErrorOf(err: S.ReadErr, env: Env): (t: Term)
      reads `sawStop
      ensures t == RecvError(sawStop, err, env)
    {
      if err == S.EOF then (if sawStop then Complete else Truncated)
      else if err == S.TooLarge then Failed(Upstream, OversizedEvent)
      else
        var class_ := if err == S.Deadline || env.ctx == Expired then Timeout
                      else if err == S.Canceled || env.ctx == Cancelled then Canceled
                      else Upstream;
        if class_ == Upstream && env.userClosed then Truncated else Failed(class_, ReadFailed)
    }
  }

  /** On the Anthropic wire only message_stop sets the latch. */
  lemma ReactionSaw(decode: string -> Option<AnthropicPayload>, l: Latch, ev: S.SSEEvent)
    ensures match ReactAnthropic(decode, l, ev)
            case Emit(_, l') => l'.saw == l.saw
            case Skip(l') => l'.saw == l.saw
            case Finish(l') => l'.saw
            case Fail(_) => true
  {
  }
}
