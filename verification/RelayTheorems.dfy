/** What follows from the round trip: a client cut off is never fooled, a recorded stream replays
    as the stream it was, and the gateway as a whole passes an OpenAI stream through unchanged. */
module RelayTheorems {
  import opened Common
  import S = SseSpec
  import opened StreamSpec
  import opened Truncation
  import opened RelaySpec

  // ----- a client that loses its connection

  lemma {:induction false} MarkerAfterBlank(usageOf: string -> Option<Usage>, l: Latch, tail: string)
    ensures MarkerEnd(OpenAI(usageOf), l, "\n" + tail, S.EOF) == After(1, MarkerEnd(OpenAI(usageOf), l, tail, S.EOF))
  {
    BlankLineSkipped(tail, S.EOF);
    var n := S.Next(tail, S.EOF);
    if n.Event? {
      MarkerStep(usageOf, l, tail, n.ev, n.rest);
      MarkerStep(usageOf, l, "\n" + tail, n.ev, n.rest);
    }
  }

  lemma {:induction false} MarkerStep(usageOf: string -> Option<Usage>, l: Latch, rest: string, ev: S.SSEEvent, rest': string)
    requires S.Next(rest, S.EOF) == S.Event(ev, rest') && |rest'| < |rest|
    ensures MarkerEnd(OpenAI(usageOf), l, rest, S.EOF)
         == if !ev.keepalive && ev.hasData && ev.data == DONE then Some(|rest| - |rest'|)
            else After(|rest| - |rest'|, MarkerEnd(OpenAI(usageOf), l, rest', S.EOF))
  {
  }

  lemma {:induction false} MarkerAfterOne(p: Piece, tail: string, usageOf: string -> Option<Usage>, l: Latch)
    requires p.keepalive || Relayable(p.data)
    ensures MarkerEnd(OpenAI(usageOf), l, Opening(p) + tail, S.EOF)
         == After(|Opening(p)|, MarkerEnd(OpenAI(usageOf), l, tail, S.EOF))
  {
    if p.keepalive {
      KeepaliveReadsBack(tail, S.EOF);
      MarkerStep(usageOf, l, KEEPALIVE_FRAME + tail, S.KEEPALIVE, "\n" + tail);
      MarkerAfterBlank(usageOf, l, tail);
    } else {
      FrameReadsBack(p.data, tail, S.EOF);
      MarkerStep(usageOf, l, Frame(p.data) + tail, S.SSEEvent("", p.data, true, false), tail);
    }
  }

  /** The sentinel's event is closed by the very last byte of a completed relay. */
  lemma {:induction false} MarkerIsLast(hs: seq<Happening>, error: string, usageOf: string -> Option<Usage>, l: Latch)
    requires AllRelayable(hs) && EndsComplete(hs)
    ensures MarkerEnd(OpenAI(usageOf), l, Written(hs, error), S.EOF) == Some(|Written(hs, error)|)
  {
    if hs[0].Received? {
      MarkerIsLast(hs[1..], error, usageOf, l);
      MarkerGrows(hs[0].p, Written(hs[1..], error), Written(hs, error), usageOf, l);
    } else {
      SentinelIsMarker(usageOf, l);
    }
  }

  lemma {:induction false} MarkerGrows(p: Piece, tail: string, all: string, usageOf: string -> Option<Usage>, l: Latch)
    requires (p.keepalive || Relayable(p.data)) && all == Opening(p) + tail
    requires MarkerEnd(OpenAI(usageOf), l, tail, S.EOF) == Some(|tail|)
    ensures MarkerEnd(OpenAI(usageOf), l, all, S.EOF) == Some(|all|)
  {
    MarkerAfterOne(p, tail, usageOf, l);
  }

  lemma SentinelIsMarker(usageOf: string -> Option<Usage>, l: Latch)
    ensures MarkerEnd(OpenAI(usageOf), l, Frame(DONE), S.EOF) == Some(|Frame(DONE)|)
  {
    assert Framable(DONE) && Frame(DONE) + "" == Frame(DONE);
    FrameReadsBack(DONE, "", S.EOF);
    MarkerStep(usageOf, l, Frame(DONE), S.SSEEvent("", DONE, true, false), "");
  }

  lemma NoCRLineAppend(a: string, b: string)
    requires S.NoCRLine(a) && S.NoCRLine(b)
    ensures S.NoCRLine(a + b)
  {
    forall i | 0 <= i < |a + b| && (a + b)[i] == '\r' ensures i > 0 && (a + b)[i - 1] != '\n' {
      if i < |a| {
        assert a[i] == '\r' && (i > 0 ==> (a + b)[i - 1] == a[i - 1]);
      } else {
        assert b[i - |a|] == '\r' && (i > |a| ==> (a + b)[i - 1] == b[i - |a| - 1]);
      }
    }
  }

  lemma FrameHasNoCRLine(data: string)
    requires '\n' !in data
    ensures S.NoCRLine(Frame(data))
  {
    var f := Frame(data);
    forall i | 0 <= i < |f| && f[i] == '\r' ensures i > 0 && f[i - 1] != '\n' {
      assert 6 <= i < 6 + |data|;
      if i > 6 { assert f[i - 1] == data[i - 7]; }
    }
  }

  /** No line the relay writes starts with a CR. */
  lemma {:induction false} WrittenHasNoCRLine(hs: seq<Happening>, error: string)
    requires AllRelayable(hs) && Relayable(error)
    ensures S.NoCRLine(Written(hs, error))
  {
    if hs != [] {
      match hs[0]
      case Received(p) =>
        if !p.keepalive { FrameHasNoCRLine(p.data); }
        WrittenHasNoCRLine(hs[1..], error);
        NoCRLineAppend(Opening(p), Written(hs[1..], error));
      case Ended(t) =>
        EnvelopeIsRelayable();
        FrameHasNoCRLine(if t == Complete then DONE else error);
      case IdleFired => FrameHasNoCRLine(error);
      case Gone =>
    }
  }

  /** Cut what was relayed short at any byte: the client reads a prefix of the payloads and does not
      take it for a whole answer. */
  lemma CutClientIsNotFooled(hs: seq<Happening>, n: nat, usageOf: string -> Option<Usage>, env: Env)
    requires AllRelayable(hs) && EndsComplete(hs) && n < |Written(hs, ERROR_FRAME)|
    ensures var w := Written(hs, ERROR_FRAME);
            var (cs, t) := Deliver(OpenAI(usageOf), Fresh(""), w[..n], S.EOF, env);
            t != Complete && DataOnly(cs) <= DataOnly(AllSeen(usageOf, Pieces(hs)))
  {
    EnvelopeIsRelayable();
    WrittenHasNoCRLine(hs, ERROR_FRAME);
    MarkerIsLast(hs, ERROR_FRAME, usageOf, Fresh(""));
    CutPlainAnywhere(OpenAI(usageOf), "", Written(hs, ERROR_FRAME), n, S.EOF, S.EOF, env);
    RelayRoundTrip(hs, usageOf, env);
    assert AllSeen(usageOf, Pieces(hs)) + [] == AllSeen(usageOf, Pieces(hs));
  }

  // ----- record and replay

  function Payloads(ps: seq<Piece>): seq<string> {
    if ps == [] then [] else (if ps[0].keepalive then [] else [ps[0].data]) + Payloads(ps[1..])
  }

  function Replayed(frames: seq<string>): seq<Happening> {
    if frames == [] then [Ended(Complete)] else [Received(Piece(false, frames[0], None))] + Replayed(frames[1..])
  }

  /** The data chunks of a client's view are the payloads, in order. */
  lemma {:induction false} SeenPayloads(usageOf: string -> Option<Usage>, ps: seq<Piece>)
    ensures DataOnly(AllSeen(usageOf, ps)) == AllSeen(usageOf, Pieces(Replayed(Payloads(ps))))
  {
    if ps != [] {
      SeenPayloads(usageOf, ps[1..]);
      assert AllSeen(usageOf, ps)[1..] == AllSeen(usageOf, ps[1..]);
      if ps[0].keepalive {
        assert Payloads(ps) == Payloads(ps[1..]);
      } else {
        assert Payloads(ps)[1..] == Payloads(ps[1..]);
        var again := Replayed(Payloads(ps));
        assert again[1..] == Replayed(Payloads(ps[1..]));
        assert Pieces(again)[1..] == Pieces(again[1..]);
      }
    }
  }

  lemma {:induction false} ReplayedIsRelayable(hs: seq<Happening>)
    requires AllRelayable(hs)
    ensures AllRelayable(Replayed(Payloads(Pieces(hs)))) && EndsComplete(Replayed(Payloads(Pieces(hs))))
  {
    if hs != [] && hs[0].Received? {
      ReplayedIsRelayable(hs[1..]);
      assert Pieces(hs)[1..] == Pieces(hs[1..]);
      var again := Replayed(Payloads(Pieces(hs)));
      if hs[0].p.keepalive {
        assert Payloads(Pieces(hs)) == Payloads(Pieces(hs[1..]));
      } else {
        assert Payloads(Pieces(hs))[1..] == Payloads(Pieces(hs[1..]));
        assert again[1..] == Replayed(Payloads(Pieces(hs[1..])));
        assert again[0] == Received(Piece(false, hs[0].p.data, None));
        forall i | 0 < i < |again| && again[i].Received? && !again[i].p.keepalive ensures Relayable(again[i].p.data) {
          assert again[i] == again[1..][i - 1];
        }
      }
    }
  }

  /** A completed stream replayed from its recorded payloads reads as the live one did, less its
      keepalives, and ends complete. */
  lemma ReplayReadsAsLive(hs: seq<Happening>, usageOf: string -> Option<Usage>, env: Env)
    requires AllRelayable(hs) && EndsComplete(hs)
    ensures var live := Deliver(OpenAI(usageOf), Fresh(""), Written(hs, ERROR_FRAME), S.EOF, env);
            var again := Deliver(OpenAI(usageOf), Fresh(""), Written(Replayed(Payloads(Pieces(hs))), ERROR_FRAME), S.EOF, env);
            again == (DataOnly(live.0), Complete) && live.1 == Complete
  {
    RelayRoundTrip(hs, usageOf, env);
    ReplayedIsRelayable(hs);
    RelayRoundTrip(Replayed(Payloads(Pieces(hs))), usageOf, env);
    SeenPayloads(usageOf, Pieces(hs));
    assert AllSeen(usageOf, Pieces(hs)) + [] == AllSeen(usageOf, Pieces(hs));
    var replay := AllSeen(usageOf, Pieces(Replayed(Payloads(Pieces(hs)))));
    assert replay + [] == replay;
  }

  // ----- upstream to client

  /** Chunks of an OpenAI stream as the relay receives them, and how the stream ended. */
  function Relayed(cs: seq<Chunk>, t: Term): seq<Happening> {
    if cs == [] then [Ended(t)]
    else [Received(if cs[0].Raw? then Piece(false, cs[0].data, cs[0].usage) else Piece(true, "", None))] + Relayed(cs[1..], t)
  }

  predicate FromOpenAI(cs: seq<Chunk>, usageOf: string -> Option<Usage>) {
    forall i :: 0 <= i < |cs| ==> cs[i] == Keepalive || (cs[i].Raw? && cs[i].usage == usageOf(cs[i].data))
  }

  /** What the wire lets through already fits a frame, but for length and newlines. */
  predicate Unframed(data: string) { data != DONE && (data != "" ==> data[|data| - 1] != '\r') }

  lemma {:induction false} DeliversRaw(usageOf: string -> Option<Usage>, l: Latch, body: string, endErr: S.ReadErr, env: Env)
    ensures var cs := Deliver(OpenAI(usageOf), l, body, endErr, env).0;
            FromOpenAI(cs, usageOf) && forall c :: c in cs && c.Raw? ==> Unframed(c.data)
    decreases |body|
  {
    var n := S.Next(body, endErr);
    if n.Event? {
      S.DataEndsClean(body, endErr, S.NOTHING, S.MAX_EVENT);
      var r := Interpret(OpenAI(usageOf), l, n.ev);
      if r.Emit? || r.Skip? { DeliversRaw(usageOf, r.l, n.rest, endErr, env); }
    }
  }

  lemma {:induction false} RelayedView(cs: seq<Chunk>, t: Term, usageOf: string -> Option<Usage>)
    requires FromOpenAI(cs, usageOf)
    requires forall c :: c in cs && c.Raw? ==> Relayable(c.data)
    ensures AllRelayable(Relayed(cs, t)) && AllSeen(usageOf, Pieces(Relayed(cs, t))) == cs
    ensures EndOf(Relayed(cs, t)) == Some(Ended(t))
  {
    if cs != [] {
      var hs, rest := Relayed(cs, t), cs[1..];
      assert forall i :: 0 <= i < |rest| ==> rest[i] == cs[i + 1] && rest[i] in cs;
      RelayedView(rest, t, usageOf);
      assert hs[1..] == Relayed(rest, t);
      assert Pieces(hs)[1..] == Pieces(hs[1..]);
      assert cs[0] in cs;
      forall i | 0 < i < |hs| && hs[i].Received? && !hs[i].p.keepalive ensures Relayable(hs[i].p.data) {
        assert hs[i] == hs[1..][i - 1];
      }
    }
  }

  /** The gateway end to end on the OpenAI wire, for payloads without a newline and within the event
      budget: the client is delivered the chunks the upstream's bytes carry, keepalives included, then
      the error envelope unless they were a whole answer, and takes the stream for complete exactly
      when they were. */
  lemma GatewayPassesThrough(usageOf: string -> Option<Usage>, body: string, endErr: S.ReadErr, env: Env, env': Env)
    requires forall c :: c in Deliver(OpenAI(usageOf), Fresh(""), body, endErr, env).0 && c.Raw? ==>
               '\n' !in c.data && |c.data| + 8 <= S.MAX_EVENT
    ensures var (cs, t) := Deliver(OpenAI(usageOf), Fresh(""), body, endErr, env);
            var (seen, end) := Deliver(OpenAI(usageOf), Fresh(""), Written(Relayed(cs, t), ERROR_FRAME), S.EOF, env');
            if t == Complete then seen == cs && end == Complete
            else seen == cs + [Raw(ERROR_FRAME, usageOf(ERROR_FRAME))] && end == Truncated
  {
    var (cs, t) := Deliver(OpenAI(usageOf), Fresh(""), body, endErr, env);
    DeliversRaw(usageOf, Fresh(""), body, endErr, env);
    assert forall c :: c in cs && c.Raw? ==> Relayable(c.data);
    RelayedView(cs, t, usageOf);
    RelayRoundTrip(Relayed(cs, t), usageOf, env');
    assert cs + [] == cs;
  }
}
