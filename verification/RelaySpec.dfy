/** What the relay writes to its client, and what a client on the same wire reads back. */
module RelaySpec {
  import opened Common
  import S = SseSpec
  import opened StreamSpec

  /** One chunk as the relay sees it. */
  datatype Piece = Piece(keepalive: bool, data: string, usage: Option<Usage>)

  /** What one turn of the select loop saw: a chunk, the stream's end, the idle timer, or the
      client gone. */
  datatype Happening = Received(p: Piece) | Ended(t: Term) | IdleFired | Gone

  const DONE := "[DONE]"
  const KEEPALIVE_FRAME := ": keep-alive\n\n"
  /** The error envelope of finishStream, as it is marshalled. */
  const ERROR_FRAME := "{\"error\":{\"message\":\"" + "upstream stream ended" + " before completion"
                     + "\",\"type\":\"api_error\"," + "\"code\":\"stream_truncated\"}}"

  function Frame(data: string): string { "data: " + data + "\n\n" }

  /** finishStream: the sentinel for a completed stream, the error envelope for any other end. */
  function Closing(t: Term, error: string): string { if t == Complete then Frame(DONE) else Frame(error) }

  function Opening(p: Piece): string { if p.keepalive then KEEPALIVE_FRAME else Frame(p.data) }

  /** Everything written, as long as the client takes it; error is the error envelope. */
  function Written(hs: seq<Happening>, error: string): string {
    if hs == [] then ""
    else match hs[0]
      case Received(p) => Opening(p) + Written(hs[1..], error)
      case Ended(t) => Closing(t, error)
      case IdleFired => Closing(Truncated, error)
      case Gone => ""
  }

  /** How the loop ended, if it did. */
  function EndOf(hs: seq<Happening>): Option<Happening> {
    if hs == [] then None else if hs[0].Received? then EndOf(hs[1..]) else Some(hs[0])
  }

  function Pieces(hs: seq<Happening>): seq<Piece> {
    if hs == [] || !hs[0].Received? then [] else [hs[0].p] + Pieces(hs[1..])
  }

  // ----- one frame, read back

  /** A payload that survives framing: no newline, no CR at its end, room for its frame, and not
      the sentinel. */
  predicate Relayable(data: string) {
    Framable(data) && data != DONE
  }

  predicate Framable(data: string) {
    (data != "" ==> data[|data| - 1] != '\r') && |data| + 8 <= S.MAX_EVENT && '\n' !in data
  }

  lemma LineOfFrame(data: string, tail: string)
    requires '\n' !in data
    ensures var all := Frame(data) + tail;
            var line := "data: " + data + "\n";
            S.LineLen(all) == |line| && all[..|line|] == line && all[|line|..] == "\n" + tail
  {
    var all := Frame(data) + tail;
    var head := "data: " + data;
    assert all == head + ("\n\n" + tail);
    S.LineLenSplit(head, "\n\n" + tail);
  }

  lemma TrimLine(s: string)
    ensures S.TrimRight(s + "\n") == S.TrimRight(s)
  {
    assert (s + "\n")[..|s|] == s;
  }

  /** A newline-free payload comes back from its frame unchanged exactly when it does not end in
      a CR and its frame is within the event budget. */
  lemma FrameReadsBack(data: string, tail: string, endErr: S.ReadErr)
    requires '\n' !in data
    ensures S.Next(Frame(data) + tail, endErr) == S.Event(S.SSEEvent("", data, true, false), tail) <==> Framable(data)
  {
    var all := Frame(data) + tail;
    var line := "data: " + data + "\n";
    LineOfFrame(data, tail);
    TrimLine("data: " + data);
    var trimmed := S.TrimRight("data: " + data);
    TrimDataLine(data);
    if |line| <= S.MAX_EVENT {
      var left := S.MAX_EVENT - |line|;
      var p := S.Partial("", [trimmed[6..]]);
      assert trimmed[0] == 'd' && S.HasPrefix(trimmed, "data:");
      assert S.FieldValue(trimmed, "data:") == trimmed[6..];
      assert S.ReadLine(trimmed, S.NOTHING, left) == S.Continue(p, left);
      assert S.Next(all, endErr) == S.NextFrom("\n" + tail, endErr, p, left);
      assert ("\n" + tail)[..1] == "\n" && S.TrimRight("\n") == "" && ("\n" + tail)[1..] == tail;
    }
  }

  lemma TrimDataLine(data: string)
    requires '\n' !in data
    ensures var t := S.TrimRight("data: " + data);
            |t| >= 6 && t[..6] == "data: " && t[6..] == S.TrimRight(data)
    ensures S.TrimRight(data) == data <==> (data != "" ==> data[|data| - 1] != '\r')
    decreases |data|
  {
    if data == "" {
      assert "data: " + data == "data: ";
    } else {
      var last := |data| - 1;
      assert ("data: " + data)[..6 + last] == "data: " + data[..last];
      assert ("data: " + data)[6 + last] == data[last];
      TrimDataLine(data[..last]);
      S.TrimKeepsHead(data[..last]);
      assert !S.IsBreak(data[last]) ==> ("data: " + data)[6..] == data;
    }
  }

  lemma KeepaliveReadsBack(tail: string, endErr: S.ReadErr)
    ensures S.Next(KEEPALIVE_FRAME + tail, endErr) == S.Event(S.KEEPALIVE, "\n" + tail)
  {
    var all := KEEPALIVE_FRAME + tail;
    var line := ": keep-alive\n";
    assert all == ": keep-alive" + ("\n\n" + tail);
    S.LineLenSplit(": keep-alive", "\n\n" + tail);
    assert all[..|line|] == line && all[|line|..] == "\n" + tail;
    S.TrimKeepsHead(line);
    assert line[0] == ':' && !S.IsBreak(line[0]);
  }

  lemma BlankLineSkipped(tail: string, endErr: S.ReadErr)
    ensures S.Next("\n" + tail, endErr) == S.Next(tail, endErr)
  {
    assert ("\n" + tail)[..1] == "\n" && S.TrimRight("\n") == "" && ("\n" + tail)[1..] == tail;
  }

  // ----- the whole relay, read back

  predicate AllRelayable(hs: seq<Happening>) {
    forall i :: 0 <= i < |hs| && hs[i].Received? && !hs[i].p.keepalive ==> Relayable(hs[i].p.data)
  }

  /** What a client makes of one piece; usageOf is its own reading of usage in a payload. */
  function Seen(usageOf: string -> Option<Usage>, p: Piece): Chunk {
    if p.keepalive then Keepalive else Raw(p.data, usageOf(p.data))
  }

  function AllSeen(usageOf: string -> Option<Usage>, ps: seq<Piece>): seq<Chunk> {
    if ps == [] then [] else [Seen(usageOf, ps[0])] + AllSeen(usageOf, ps[1..])
  }

  predicate EndsComplete(hs: seq<Happening>) { EndOf(hs) == Some(Ended(Complete)) }

  /** The error envelope, when the stream ended for any reason but completion or a lost client. */
  function Envelope(usageOf: string -> Option<Usage>, hs: seq<Happening>, error: string): seq<Chunk> {
    if EndOf(hs).None? || EndOf(hs).value.Gone? || EndsComplete(hs) then [] else [Raw(error, usageOf(error))]
  }

  lemma EnvelopeIsRelayable()
    ensures Relayable(ERROR_FRAME) && Framable(DONE)
  {
    assert '\n' !in "{\"error\":{\"message\":\"" && '\n' !in "upstream stream ended";
    assert '\n' !in " before completion" && '\n' !in "\",\"type\":\"api_error\",";
    assert '\n' !in "\"code\":\"stream_truncated\"}}";
  }

  lemma DeliverByNext(w: Wire, l: Latch, a: string, b: string, endErr: S.ReadErr, env: Env)
    requires S.Next(a, endErr) == S.Next(b, endErr)
    ensures Deliver(w, l, a, endErr, env) == Deliver(w, l, b, endErr, env)
  {
  }

  lemma DeliverKeepalive(usageOf: string -> Option<Usage>, l: Latch, tail: string, env: Env)
    ensures Deliver(OpenAI(usageOf), l, KEEPALIVE_FRAME + tail, S.EOF, env)
         == Then(Keepalive, Deliver(OpenAI(usageOf), l, tail, S.EOF, env))
  {
    KeepaliveReadsBack(tail, S.EOF);
    BlankLineSkipped(tail, S.EOF);
    DeliverByNext(OpenAI(usageOf), l, "\n" + tail, tail, S.EOF, env);
  }

  lemma DeliverFrame(usageOf: string -> Option<Usage>, l: Latch, data: string, tail: string, env: Env)
    requires Framable(data)
    ensures Deliver(OpenAI(usageOf), l, Frame(data) + tail, S.EOF, env)
         == if data == DONE then ([], Complete)
            else Then(Raw(data, usageOf(data)), Deliver(OpenAI(usageOf), l, tail, S.EOF, env))
  {
    FrameReadsBack(data, tail, S.EOF);
  }

  function ClientView(hs: seq<Happening>, error: string, usageOf: string -> Option<Usage>): (seq<Chunk>, Term) {
    (AllSeen(usageOf, Pieces(hs)) + Envelope(usageOf, hs, error), if EndsComplete(hs) then Complete else Truncated)
  }

  lemma ViewGrows(hs: seq<Happening>, error: string, usageOf: string -> Option<Usage>)
    requires hs != [] && hs[0].Received?
    ensures ClientView(hs, error, usageOf) == Then(Seen(usageOf, hs[0].p), ClientView(hs[1..], error, usageOf))
  {
    assert Pieces(hs)[1..] == Pieces(hs[1..]);
    var rest, e := AllSeen(usageOf, Pieces(hs[1..])), Envelope(usageOf, hs, error);
    assert ([Seen(usageOf, hs[0].p)] + rest) + e == [Seen(usageOf, hs[0].p)] + (rest + e);
  }

  /** A client reads back every payload in order, keepalives as keepalives only, and takes the
      stream for complete exactly when the relay saw it complete. */
  lemma {:induction false} RoundTrip(hs: seq<Happening>, error: string, usageOf: string -> Option<Usage>, l: Latch, env: Env)
    requires AllRelayable(hs) && Relayable(error) && !l.saw
    ensures Deliver(OpenAI(usageOf), l, Written(hs, error), S.EOF, env) == ClientView(hs, error, usageOf)
  {
    if hs == [] || !hs[0].Received? {
      ClosingReadsBack(hs, error, usageOf, l, env);
    } else {
      RoundTrip(hs[1..], error, usageOf, l, env);
      OneReadsBack(hs[0].p, Written(hs[1..], error), usageOf, l, env);
      ViewGrows(hs, error, usageOf);
    }
  }

  lemma OneReadsBack(p: Piece, tail: string, usageOf: string -> Option<Usage>, l: Latch, env: Env)
    requires p.keepalive || Relayable(p.data)
    ensures Deliver(OpenAI(usageOf), l, Opening(p) + tail, S.EOF, env)
         == Then(Seen(usageOf, p), Deliver(OpenAI(usageOf), l, tail, S.EOF, env))
  {
    if p.keepalive {
      DeliverKeepalive(usageOf, l, tail, env);
    } else {
      DeliverFrame(usageOf, l, p.data, tail, env);
    }
  }

  lemma ClosingReadsBack(hs: seq<Happening>, error: string, usageOf: string -> Option<Usage>, l: Latch, env: Env)
    requires (hs == [] || !hs[0].Received?) && Relayable(error) && !l.saw
    ensures Deliver(OpenAI(usageOf), l, Written(hs, error), S.EOF, env) == ClientView(hs, error, usageOf)
  {
    var e := Envelope(usageOf, hs, error);
    assert Pieces(hs) == [] && AllSeen(usageOf, []) + e == e;
    if hs != [] && !hs[0].Gone? {
      LastFrame(if hs[0] == Ended(Complete) then DONE else error, usageOf, l, env);
    } else {
      NothingLeft(usageOf, l, env);
    }
  }

  lemma NothingLeft(usageOf: string -> Option<Usage>, l: Latch, env: Env)
    requires !l.saw
    ensures Deliver(OpenAI(usageOf), l, "", S.EOF, env) == ([], Truncated)
  {
    assert S.LineLen("") == 0;
    assert S.NextFrom("", S.EOF, S.NOTHING, S.MAX_EVENT) == S.Stop(S.EOF);
    var d := Deliver(OpenAI(usageOf), l, "", S.EOF, env);
    assert d == ([], RecvError(l.saw, S.EOF, env));
  }

  lemma LastFrame(data: string, usageOf: string -> Option<Usage>, l: Latch, env: Env)
    requires (data == DONE || Relayable(data)) && !l.saw
    ensures Deliver(OpenAI(usageOf), l, Frame(data), S.EOF, env)
         == if data == DONE then ([], Complete) else ([Raw(data, usageOf(data))], Truncated)
  {
    assert Framable(data);
    assert Frame(data) + "" == Frame(data);
    DeliverFrame(usageOf, l, data, "", env);
    NothingLeft(usageOf, l, env);
    assert [Raw(data, usageOf(data))] + [] == [Raw(data, usageOf(data))];
  }

  /** As the relay writes it. */
  lemma RelayRoundTrip(hs: seq<Happening>, usageOf: string -> Option<Usage>, env: Env)
    requires AllRelayable(hs)
    ensures var (cs, t) := Deliver(OpenAI(usageOf), Fresh(""), Written(hs, ERROR_FRAME), S.EOF, env);
            && cs == AllSeen(usageOf, Pieces(hs)) + Envelope(usageOf, hs, ERROR_FRAME)
            && (t == Complete <==> EndsComplete(hs)) && (t != Complete ==> t == Truncated)
  {
    EnvelopeIsRelayable();
    RoundTrip(hs, ERROR_FRAME, usageOf, Fresh(""), env);
  }
}
