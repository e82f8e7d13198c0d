/** The relay of internal/ingress/handlers.go and the recorder and replay of cached.go, as loops
    over a client that may stop taking bytes at any point. */
module Relay {
  import opened Common
  import opened StreamSpec
  import opened RelaySpec
  import opened RelayTheorems

  function Cap(s: string, room: nat): string { if |s| <= room then s else s[..room] }

  lemma CapSplit(a: string, b: string, room: nat)
    ensures Cap(a + b, room) == if |a| <= room then a + Cap(b, room - |a|) else Cap(a, room)
  {
  }

  /** The client's side of the connection: it takes room more bytes, then writes fail. */
  class ResponseWriter {
    var out: string
    var room: nat

    constructor (room: nat)
      ensures out == "" && this.room == room
    {
      out, this.room := "", room;
    }

    method Write(b: string) returns (ok: bool)
      modifies this
      ensures ok == (|b| <= old(room))
      ensures out == old(out) + Cap(b, old(room))
      ensures room == if ok then old(room) - |b| else 0
    {
      ok := |b| <= room;
      out := out + Cap(b, room);
      room := if ok then room - |b| else 0;
    }
  }

  /** out is what the client ends up with if text is all there is still to write. */
  ghost predicate Ahead(w: ResponseWriter, text: string, out: string)
    reads w
  {
    w.out + Cap(text, w.room) == out
  }

  lemma AheadSplit(sofar: string, f: string, tail: string, room: nat)
    ensures sofar + Cap(f + tail, room)
         == if |f| <= room then (sofar + Cap(f, room)) + Cap(tail, room - |f|) else sofar + Cap(f, room)
  {
    CapSplit(f, tail, room);
    if |f| <= room {
      assert sofar + (f + Cap(tail, room - |f|)) == (sofar + f) + Cap(tail, room - |f|);
    }
  }

  method WriteSSEFrame(w: ResponseWriter, data: string) returns (ok: bool)
    modifies w
    ensures ok == (|Frame(data)| <= old(w.room))
    ensures w.out == old(w.out) + Cap(Frame(data), old(w.room))
    ensures w.room == if ok then old(w.room) - |Frame(data)| else 0
  {
    CapSplit("data: ", data + "\n\n", w.room);
    assert Frame(data) == "data: " + (data + "\n\n");
    ok := w.Write("data: ");
    if !ok {
      return;
    }
    CapSplit(data, "\n\n", w.room);
    ok := w.Write(data);
    if !ok {
      return;
    }
    ok := w.Write("\n\n");
  }

  /** A frame leaves, with tail still to come. */
  method SendFrame(w: ResponseWriter, data: string, ghost tail: string, ghost out: string) returns (ok: bool)
    requires Ahead(w, Frame(data) + tail, out)
    modifies w
    ensures ok == (|Frame(data)| <= old(w.room))
    ensures ok ==> w.room == old(w.room) - |Frame(data)| && Ahead(w, tail, out)
    ensures !ok ==> w.out == out
  {
    AheadSplit(w.out, Frame(data), tail, w.room);
    ok := WriteSSEFrame(w, data);
  }

  method SendText(w: ResponseWriter, text: string, ghost tail: string, ghost out: string) returns (ok: bool)
    requires Ahead(w, text + tail, out)
    modifies w
    ensures ok == (|text| <= old(w.room))
    ensures ok ==> w.room == old(w.room) - |text| && Ahead(w, tail, out)
    ensures !ok ==> w.out == out
  {
    AheadSplit(w.out, text, tail, w.room);
    ok := w.Write(text);
  }

  /** Ends the response; a failed write is not looked at. */
  method FinishStream(w: ResponseWriter, cause: Term)
    modifies w
    ensures w.out == old(w.out) + Cap(Closing(cause, ERROR_FRAME), old(w.room))
  {
    if cause == Complete {
      var _ := w.Write(Frame(DONE));
      return;
    }
    var _ := WriteSSEFrame(w, ERROR_FRAME);
  }

  // ----- the recorder

  const MAX_CACHED: nat := 1_048_576

  function Total(frames: seq<string>): nat {
    if frames == [] then 0 else |frames[0]| + Total(frames[1..])
  }

  lemma {:induction false} TotalAppend(a: seq<string>, f: string)
    ensures Total(a + [f]) == Total(a) + |f|
  {
    if a == [] {
      assert a + [f] == [f] && [f][1..] == [];
    } else {
      TotalAppend(a[1..], f);
      assert (a + [f])[1..] == a[1..] + [f];
    }
  }

  /** Collects frames until they would not fit, then gives up on all of them. */
  class StreamRecorder {
    var frames: seq<string>
    var bytes: nat
    var dropped: bool
    /** Every frame it was handed. */
    ghost var given: seq<string>

    ghost predicate Valid()
      reads this
    {
      && dropped == (Total(given) > MAX_CACHED)
      && frames == (if dropped then [] else given)
      && (!dropped ==> bytes == Total(given))
    }

    constructor ()
      ensures Valid() && given == []
    {
      frames, bytes, dropped, given := [], 0, false, [];
    }

    method Add(frame: string)
      requires Valid()
      modifies this
      ensures Valid() && given == old(given) + [frame]
    {
      TotalAppend(given, frame);
      given := given + [frame];
      if dropped {
        return;
      }
      if bytes + |frame| > MAX_CACHED {
        dropped := true;
        frames := [];
        return;
      }
      frames := frames + [frame];
      bytes := bytes + |frame|;
    }

    /** The storable answer: all of it or nothing. */
    method Entry() returns (e: Option<seq<string>>)
      requires Valid()
      ensures e == if given == [] || Total(given) > MAX_CACHED then None else Some(given)
    {
      if dropped || |frames| == 0 {
        return None;
      }
      e := Some(frames);
    }
  }

  // ----- the relay loop

  /** The latest usage any of ps reported. */
  function LastUsage(ps: seq<Piece>): Option<Usage> {
    if ps == [] then None
    else if LastUsage(ps[1..]).Some? then LastUsage(ps[1..])
    else ps[0].usage
  }

  /** The chunks the loop takes from upstream: up to the first whose write fails. */
  function Taken(ps: seq<Piece>, room: nat): seq<Piece> {
    if ps == [] then []
    else if |Opening(ps[0])| > room then [ps[0]]
    else [ps[0]] + Taken(ps[1..], room - |Opening(ps[0])|)
  }

  function Either(a: Option<Usage>, b: Option<Usage>): Option<Usage> { if a.Some? then a else b }

  class StreamTally {
    var lastUsage: Option<Usage>
    var completed: bool
    const recorder: StreamRecorder

    constructor ()
      ensures lastUsage == None && !completed && fresh(recorder) && recorder.Valid() && recorder.given == []
    {
      lastUsage, completed := None, false;
      recorder := new StreamRecorder();
    }
  }

  /** Whether every chunk before the end was written. */
  predicate Delivered(hs: seq<Happening>, room: nat) {
    hs == [] || !hs[0].Received? ||
    (|Opening(hs[0].p)| <= room && Delivered(hs[1..], room - |Opening(hs[0].p)|))
  }

  lemma {:induction false} TakenStep(p: Piece, hs: seq<Happening>, room: nat)
    requires hs != [] && hs[0] == Received(p)
    ensures Pieces(hs) == [p] + Pieces(hs[1..])
    ensures LastUsage(Taken(Pieces(hs), room))
         == if |Opening(p)| > room then p.usage
            else Either(LastUsage(Taken(Pieces(hs[1..]), room - |Opening(p)|)), p.usage)
  {
    assert Pieces(hs)[1..] == Pieces(hs[1..]);
    if |Opening(p)| <= room {
      var rest := Taken(Pieces(hs[1..]), room - |Opening(p)|);
      assert ([p] + rest)[1..] == rest;
    }
  }

  /** The pieces still ahead, with room to write, bring sofar to target. */
  predicate UsageOwed(sofar: Option<Usage>, ps: seq<Piece>, room: nat, target: Option<Usage>) {
    target == Either(LastUsage(Taken(ps, room)), sofar)
  }

  predicate PayloadsOwed(given: seq<string>, ps: seq<Piece>, target: seq<string>) {
    given + Payloads(ps) == target
  }

  lemma {:induction false} UsageStep(sofar: Option<Usage>, p: Piece, hs: seq<Happening>, room: nat, target: Option<Usage>)
    requires hs != [] && hs[0] == Received(p) && UsageOwed(sofar, Pieces(hs), room, target)
    ensures |Opening(p)| > room ==> Either(p.usage, sofar) == target
    ensures |Opening(p)| <= room ==> UsageOwed(Either(p.usage, sofar), Pieces(hs[1..]), room - |Opening(p)|, target)
  {
    TakenStep(p, hs, room);
  }

  lemma {:induction false} PayloadsStep(given: seq<string>, p: Piece, hs: seq<Happening>, target: seq<string>)
    requires hs != [] && hs[0] == Received(p) && PayloadsOwed(given, Pieces(hs), target)
    ensures PayloadsOwed(if p.keepalive then given else given + [p.data], Pieces(hs[1..]), target)
  {
    var rest := Payloads(Pieces(hs[1..]));
    assert Pieces(hs)[1..] == Pieces(hs[1..]);
    assert given + ([p.data] + rest) == (given + [p.data]) + rest;
    assert [] + rest == rest;
  }

  method NoteUsage(tally: StreamTally, usage: Option<Usage>)
    modifies tally`lastUsage
    ensures tally.lastUsage == Either(usage, old(tally.lastUsage))
  {
    if usage.Some? {
      tally.lastUsage := usage;
    }
  }

  /** One chunk through the loop: noted, written, recorded. */
  method RelayPiece(w: ResponseWriter, tally: StreamTally, p: Piece, ghost tail: string, ghost out: string)
    returns (ok: bool)
    requires Ahead(w, Opening(p) + tail, out) && tally.recorder.Valid()
    modifies w, tally`lastUsage, tally.recorder
    ensures ok == (|Opening(p)| <= old(w.room))
    ensures if ok then w.room == old(w.room) - |Opening(p)| && Ahead(w, tail, out) else w.out == out
    ensures tally.lastUsage == Either(p.usage, old(tally.lastUsage))
    ensures tally.recorder.Valid()
    ensures ok ==> tally.recorder.given == old(tally.recorder.given) + if p.keepalive then [] else [p.data]
  {
    NoteUsage(tally, p.usage);
    if p.keepalive {
      ok := SendText(w, KEEPALIVE_FRAME, tail, out);
      return;
    }
    ok := SendFrame(w, p.data, tail, out);
    if ok {
      tally.recorder.Add(p.data);
    }
  }

  /** The turn of the loop that ends it; upstream completing is what makes the answer whole. */
  method EndOfStream(w: ResponseWriter, tally: StreamTally, h: Happening)
    requires !h.Received? && !tally.completed
    modifies w, tally`completed
    ensures w.out == old(w.out) + Cap(Written([h], ERROR_FRAME), old(w.room))
    ensures tally.completed == (h == Ended(Complete))
  {
    match h {
      case Ended(t) =>
        tally.completed := t == Complete;
        FinishStream(w, t);
      case IdleFired =>
        FinishStream(w, Truncated);
      case Gone =>
    }
  }

  /** What the loop has yet to do, while nothing has failed: the rest of the bytes, the usage and
      the payloads of a stream hs that found room at the start. */
  ghost predicate Owing(sofar: string, left: nat, usage: Option<Usage>, given: seq<string>, rest: seq<Happening>,
                        hs: seq<Happening>, out: string, room: nat)
  {
    && sofar + Cap(Written(rest, ERROR_FRAME), left) == out
    && UsageOwed(usage, Pieces(rest), left, LastUsage(Taken(Pieces(hs), room)))
    && PayloadsOwed(given, Pieces(rest), Payloads(Pieces(hs)))
    && EndsComplete(hs) == EndsComplete(rest) && Delivered(hs, room) == Delivered(rest, left)
  }

  lemma {:induction false} OwingOn(sofar: string, left: nat, usage: Option<Usage>, given: seq<string>, p: Piece,
                                   rest: seq<Happening>, hs: seq<Happening>, out: string, room: nat, sofar': string)
    requires rest != [] && rest[0] == Received(p) && Owing(sofar, left, usage, given, rest, hs, out, room)
    requires |Opening(p)| <= left && sofar' + Cap(Written(rest[1..], ERROR_FRAME), left - |Opening(p)|) == out
    ensures Owing(sofar', left - |Opening(p)|, Either(p.usage, usage), given + (if p.keepalive then [] else [p.data]),
                  rest[1..], hs, out, room)
  {
    UsageStep(usage, p, rest, left, LastUsage(Taken(Pieces(hs), room)));
    PayloadsStep(given, p, rest, Payloads(Pieces(hs)));
    assert given + [] == given;
  }

  lemma {:induction false} OwingOver(sofar: string, left: nat, usage: Option<Usage>, given: seq<string>, p: Piece,
                                     rest: seq<Happening>, hs: seq<Happening>, out: string, room: nat)
    requires rest != [] && rest[0] == Received(p) && Owing(sofar, left, usage, given, rest, hs, out, room)
    requires |Opening(p)| > left
    ensures Either(p.usage, usage) == LastUsage(Taken(Pieces(hs), room)) && !Delivered(hs, room)
  {
    UsageStep(usage, p, rest, left, LastUsage(Taken(Pieces(hs), room)));
  }

  ghost predicate Owes(w: ResponseWriter, tally: StreamTally, rest: seq<Happening>, hs: seq<Happening>,
                       out: string, room: nat)
    reads w, tally, tally.recorder
  {
    && tally.recorder.Valid() && !tally.completed
    && Owing(w.out, w.room, tally.lastUsage, tally.recorder.given, rest, hs, out, room)
  }

  ghost predicate Done(w: ResponseWriter, tally: StreamTally, hs: seq<Happening>, out: string, room: nat)
    reads w, tally, tally.recorder
  {
    && w.out == out && tally.recorder.Valid()
    && tally.lastUsage == LastUsage(Taken(Pieces(hs), room))
    && tally.completed == (EndsComplete(hs) && Delivered(hs, room))
    && (tally.completed ==> tally.recorder.given == Payloads(Pieces(hs)))
  }

  method RelayOne(w: ResponseWriter, tally: StreamTally, rest: seq<Happening>, ghost hs: seq<Happening>,
                  ghost out: string, ghost room: nat) returns (more: bool)
    requires rest != [] && rest[0].Received? && Owes(w, tally, rest, hs, out, room)
    modifies w, tally, tally.recorder
    ensures if more then Owes(w, tally, rest[1..], hs, out, room) else Done(w, tally, hs, out, room)
  {
    var p := rest[0].p;
    ghost var sofar, left, usage, given := w.out, w.room, tally.lastUsage, tally.recorder.given;
    more := RelayPiece(w, tally, p, Written(rest[1..], ERROR_FRAME), out);
    if more {
      OwingOn(sofar, left, usage, given, p, rest, hs, out, room, w.out);
    } else {
      OwingOver(sofar, left, usage, given, p, rest, hs, out, room);
    }
  }

  method RelayEnd(w: ResponseWriter, tally: StreamTally, rest: seq<Happening>, ghost hs: seq<Happening>,
                  ghost out: string, ghost room: nat)
    requires rest != [] && !rest[0].Received? && Owes(w, tally, rest, hs, out, room)
    modifies w, tally
    ensures Done(w, tally, hs, out, room)
  {
    EndOfStream(w, tally, rest[0]);
    assert tally.recorder.given + [] == tally.recorder.given;
  }

  /** serveStream's loop over what happens. The client gets the bytes of Written, as far as it
      takes them; the tally ends with the last usage among the chunks taken, completed exactly
      when upstream completed and every chunk was written, and then with every payload recorded. */
  method ServeStream(w: ResponseWriter, hs: seq<Happening>) returns (tally: StreamTally)
    modifies w
    ensures fresh(tally) && fresh(tally.recorder)
    ensures Done(w, tally, hs, old(w.out) + Cap(Written(hs, ERROR_FRAME), old(w.room)), old(w.room))
  {
    ghost var out, room := w.out + Cap(Written(hs, ERROR_FRAME), w.room), w.room;
    tally := new StreamTally();
    assert [] + Payloads(Pieces(hs)) == Payloads(Pieces(hs));
    var left := hs;
    while left != []
      invariant fresh(tally) && fresh(tally.recorder) && Owes(w, tally, left, hs, out, room)
      decreases |left|
    {
      if !left[0].Received? {
        RelayEnd(w, tally, left, hs, out, room);
        return;
      }
      var more := RelayOne(w, tally, left, hs, out, room);
      if !more {
        return;
      }
      left := left[1..];
    }
  }

  /** replayStream: the stored frames as they were, then the sentinel. */
  method ReplayStream(w: ResponseWriter, frames: seq<string>)
    modifies w
    ensures w.out == old(w.out) + Cap(Written(Replayed(frames), ERROR_FRAME), old(w.room))
  {
    var left := frames;
    ghost var out := w.out + Cap(Written(Replayed(frames), ERROR_FRAME), w.room);
    while left != []
      invariant Ahead(w, Written(Replayed(left), ERROR_FRAME), out)
      decreases |left|
    {
      ReplayedStep(left);
      var ok := SendFrame(w, left[0], Written(Replayed(left[1..]), ERROR_FRAME), out);
      if !ok {
        return;
      }
      left := left[1..];
    }
    var _ := w.Write(Frame(DONE));
  }

  lemma ReplayedStep(frames: seq<string>)
    requires frames != []
    ensures Written(Replayed(frames), ERROR_FRAME) == Frame(frames[0]) + Written(Replayed(frames[1..]), ERROR_FRAME)
  {
    assert Replayed(frames)[1..] == Replayed(frames[1..]);
  }
}
