/** What a request is billed with and what it stores, told from what happened to it, and what a
    later request that finds the stored answer is served. */
module Answers {
  import opened Common
  import S = SseSpec
  import opened StreamSpec
  import opened Truncation
  import opened RelaySpec
  import opened RelayTheorems
  import opened Relay
  import M = BudgetModel
  import opened Guard
  import opened Handlers

  /** The bytes written for ps. */
  function Bytes(ps: seq<Piece>): nat { if ps == [] then 0 else |Opening(ps[0])| + Bytes(ps[1..]) }

  lemma {:induction false} DeliveredIsRoom(hs: seq<Happening>, room: nat)
    ensures Delivered(hs, room) <==> Bytes(Pieces(hs)) <= room
  {
    if hs != [] && hs[0].Received? {
      assert Pieces(hs)[1..] == Pieces(hs[1..]);
      if |Opening(hs[0].p)| <= room { DeliveredIsRoom(hs[1..], room - |Opening(hs[0].p)|); }
    }
  }

  /** The i-th chunk is taken from upstream: all before it were written. */
  predicate Reached(ps: seq<Piece>, room: nat, i: nat)
    requires i <= |ps|
  {
    Bytes(ps[..i]) <= room
  }

  lemma ReachedShift(ps: seq<Piece>, room: nat, i: nat)
    requires ps != [] && 0 < i <= |ps|
    ensures Reached(ps, room, i) <==> |Opening(ps[0])| <= room && Reached(ps[1..], room - |Opening(ps[0])|, i - 1)
  {
    assert ps[..i][0] == ps[0] && ps[..i][1..] == ps[1..][..i - 1];
  }

  /** u is what the last chunk reached with any usage reported. */
  ghost predicate LastReported(ps: seq<Piece>, room: nat, u: Usage) {
    exists i :: 0 <= i < |ps| && Reached(ps, room, i) && ps[i].usage == Some(u) && NoneAfter(ps, room, i)
  }

  predicate NoneAfter(ps: seq<Piece>, room: nat, i: int) {
    forall j :: i < j < |ps| && 0 <= j && Reached(ps, room, j) ==> ps[j].usage.None?
  }

  /** A stream is measured by the last usage among the chunks reached, and not at all if none had any. */
  lemma {:induction false} MeasuredByLast(ps: seq<Piece>, room: nat)
    ensures match LastUsage(Taken(ps, room))
            case Some(u) => LastReported(ps, room, u)
            case None => NoneAfter(ps, room, -1)
  {
    if ps != [] {
      var first, later := |Opening(ps[0])|, ps[1..];
      assert Reached(ps, room, 0);
      forall i | 0 < i < |ps| ensures Reached(ps, room, i) <==> first <= room && Reached(later, room - first, i - 1) {
        ReachedShift(ps, room, i);
      }
      if first <= room {
        MeasuredByLast(later, room - first);
        assert Taken(ps, room)[1..] == Taken(later, room - first);
        var rest := LastUsage(Taken(later, room - first));
        if rest.Some? {
          var i :| 0 <= i < |later| && Reached(later, room - first, i) && later[i].usage == rest && NoneAfter(later, room - first, i);
          assert ps[i + 1] == later[i] && Reached(ps, room, i + 1);
          forall j | i + 1 < j < |ps| && Reached(ps, room, j) ensures ps[j].usage.None? { assert ps[j] == later[j - 1]; }
        } else {
          forall j | 0 < j < |ps| && Reached(ps, room, j) ensures ps[j].usage.None? { assert ps[j] == later[j - 1]; }
        }
      }
    }
  }

  // ----- what is billed

  /** The usage the upstream reported, by the end of it or of what was taken of it. */
  ghost predicate UsageWas(v: Visit, u: Usage) {
    v.up.Answers? && if v.q.stream then LastReported(Pieces(v.up.hs), v.room, u) else u == v.up.usage
  }

  /** The row's own price for its own counts. */
  predicate Reprices(terms: Terms, row: LedgerRow) {
    row.usd == terms.Price(row.provider, row.model, Usage(row.promptTokens, row.completionTokens, 0))
  }

  /** A row for what was used of whoever answered: the upstream's own name for provider and model, or
      the routed ones where it gives none. */
  ghost predicate Bills(terms: Terms, routes: map<string, string>, v: Visit, row: LedgerRow)
    requires Routed(routes, v)
  {
    && row.tenant == v.q.tenant && row.stamp == v.at.stamp && v.up.Answers?
    && row.provider == (if v.up.provider == "" then routes[v.q.model] else v.up.provider)
    && row.model == (if v.up.model == "" then v.q.model else v.up.model)
    && (exists u :: UsageWas(v, u) && row.promptTokens == u.prompt && row.completionTokens == u.completion)
    && Reprices(terms, row) && row.priceVersion == (if terms.prices.Some? then terms.prices.value.version else 0)
  }

  /** The upstream answered, and its answer says what it used. */
  ghost predicate Measurable(v: Visit) {
    v.up.Answers? && (v.q.stream ==> v.flushes && exists u :: LastReported(Pieces(v.up.hs), v.room, u))
  }

  /** Routed, not answered from the cache, and granted a reservation. */
  predicate LetThrough(terms: Terms, routes: map<string, string>, book: Option<M.Book>, v: Visit) {
    && Routed(routes, v) && !Serveable(v.q, v.hit, v.flushes) && book.Some? && terms.estimator.Some?
    && M.Reserve(book.value, v.q.tenant, terms.estimator.value(v.q.model, v.q.raw), v.start).1.Granted?
  }

  lemma UsedIfMeasurable(v: Visit)
    ensures Used(v).Some? <==> Measurable(v)
  {
    if v.up.Answers? {
      MeasuredByLast(Pieces(v.up.hs), v.room);
      if u :| LastReported(Pieces(v.up.hs), v.room, u) {
        var i :| 0 <= i < |Pieces(v.up.hs)| && Reached(Pieces(v.up.hs), v.room, i) && Pieces(v.up.hs)[i].usage == Some(u);
        assert !NoneAfter(Pieces(v.up.hs), v.room, -1);
      }
    }
  }

  /** A request that was let through and measured adds one row, if the ledger takes it; no other request
      adds any. */
  lemma RowExactly(terms: Terms, routes: map<string, string>, book: Option<M.Book>, rows: seq<LedgerRow>, v: Visit)
    ensures Handle(terms, routes, book, rows, v).rows != rows <==>
              LetThrough(terms, routes, book, v) && Measurable(v) && terms.keepsLedger && v.at.writes
  {
    UsedIfMeasurable(v);
    var o := Handle(terms, routes, book, rows, v);
    assert rows + [] == rows;
    if LetThrough(terms, routes, book, v) {
      var a := Begun(terms, book, v.q, v.start).1.value;
      assert o.rows == rows + RowsFor(terms, a.value, v, routes[v.q.model]);
      assert Measurable(v) && terms.keepsLedger && v.at.writes ==> |o.rows| == |rows| + 1;
    }
  }

  /** The row a request adds bills it. */
  lemma RowBillsIt(terms: Terms, routes: map<string, string>, book: Option<M.Book>, rows: seq<LedgerRow>, v: Visit)
    ensures var o := Handle(terms, routes, book, rows, v);
            || o.rows == rows
            || (|o.rows| == |rows| + 1 && o.rows[..|rows|] == rows && Routed(routes, v) && Bills(terms, routes, v, o.rows[|rows|]))
  {
    var o := Handle(terms, routes, book, rows, v);
    if o.rows != rows {
      var provider := routes[v.q.model];
      var a := Begun(terms, book, v.q, v.start).1.value;
      assert o.rows == rows + RowsFor(terms, a.value, v, provider);
      OneBills(terms, routes, v, a.value);
    }
  }

  lemma OneBills(terms: Terms, routes: map<string, string>, v: Visit, r: M.Reservation)
    requires Routed(routes, v) && RowsFor(terms, r, v, routes[v.q.model]) != [] && r.tenant == v.q.tenant
    ensures |RowsFor(terms, r, v, routes[v.q.model])| == 1 && Bills(terms, routes, v, RowsFor(terms, r, v, routes[v.q.model])[0])
  {
    if v.q.stream { MeasuredByLast(Pieces(v.up.hs), v.room); }
    assert UsageWas(v, Used(v).value);
  }

  // ----- what is stored

  /** A request stores something exactly when an upstream answered it and the answer is whole: always
      for one sent as a body, and for a stream when the upstream finished it, the client took every
      chunk, and it had data, no more of it than the ceiling. */
  lemma StoredExactly(terms: Terms, routes: map<string, string>, book: Option<M.Book>, rows: seq<LedgerRow>, v: Visit)
    ensures var o := Handle(terms, routes, book, rows, v);
            o.stored.Some? <==> o.reply == Served && (v.q.stream ==> WholeStream(v))
  {
    if v.up.Answers? {
      DeliveredIsRoom(v.up.hs, v.room);
      TotalIsLength(Payloads(Pieces(v.up.hs)));
    }
  }

  predicate WholeStream(v: Visit) {
    v.up.Answers? &&
    var ps := Pieces(v.up.hs);
    EndsComplete(v.up.hs) && Bytes(ps) <= v.room && Payloads(ps) != [] && |Joined(Payloads(ps))| <= MAX_CACHED
  }

  function Joined(frames: seq<string>): string { if frames == [] then "" else frames[0] + Joined(frames[1..]) }

  lemma {:induction false} TotalIsLength(frames: seq<string>)
    ensures Total(frames) == |Joined(frames)|
  {
    if frames != [] { TotalIsLength(frames[1..]); }
  }

  // ----- stored, then served

  /** v is answered and its answer stored; then again comes and finds that answer. */
  predicate FoundBy(terms: Terms, routes: map<string, string>, book: Option<M.Book>, rows: seq<LedgerRow>, v: Visit, again: Visit) {
    var o := Handle(terms, routes, book, rows, v);
    o.stored.Some? && again.hit == o.stored && Routed(routes, again)
  }

  /** Asked for as a body and again as a body: the upstream's body is written again, whatever has
      become of the books, and neither they nor the ledger move. */
  lemma BodyServedAgain(terms: Terms, routes: map<string, string>, book: Option<M.Book>, rows: seq<LedgerRow>, v: Visit,
                        again: Visit, book': Option<M.Book>, rows': seq<LedgerRow>)
    requires FoundBy(terms, routes, book, rows, v, again) && !v.q.stream && !again.q.stream
    ensures v.up.Answers? && Handle(terms, routes, book, rows, v).text == v.up.body
    ensures Handle(terms, routes, book', rows', again) == Outcome(book', rows', FromCache, v.up.body, None)
  {
  }

  /** A stream that is served reads back as its chunks in order, and as complete exactly when the
      upstream finished it. */
  lemma StreamReads(terms: Terms, routes: map<string, string>, book: Option<M.Book>, rows: seq<LedgerRow>, v: Visit,
                    usageOf: string -> Option<Usage>, env: Env)
    requires Handle(terms, routes, book, rows, v).reply == Served && v.q.stream
    requires v.up.Answers? ==> AllRelayable(v.up.hs)
    ensures v.up.Answers?
    ensures var (cs, t) := Deliver(OpenAI(usageOf), Fresh(""), Handle(terms, routes, book, rows, v).text, S.EOF, env);
            && cs == AllSeen(usageOf, Pieces(v.up.hs)) + Envelope(usageOf, v.up.hs, ERROR_FRAME)
            && (t == Complete <==> EndsComplete(v.up.hs))
  {
    RelayRoundTrip(v.up.hs, usageOf, env);
    ServedText(terms, routes, book, rows, v);
  }

  lemma ServedText(terms: Terms, routes: map<string, string>, book: Option<M.Book>, rows: seq<LedgerRow>, v: Visit)
    requires Handle(terms, routes, book, rows, v).reply == Served && v.q.stream && v.up.Answers?
    ensures Handle(terms, routes, book, rows, v).text == Written(v.up.hs, ERROR_FRAME)
  {
  }

  /** Asked for as a stream and again as a stream: a client reads the data chunks the upstream sent,
      in order, and a complete end, as the first one did but for keepalives. */
  lemma StreamServedAgain(terms: Terms, routes: map<string, string>, book: Option<M.Book>, rows: seq<LedgerRow>, v: Visit,
                          again: Visit, book': Option<M.Book>, rows': seq<LedgerRow>,
                          usageOf: string -> Option<Usage>, env: Env)
    requires FoundBy(terms, routes, book, rows, v, again) && v.q.stream && again.q.stream && again.flushes
    requires v.up.Answers? ==> AllRelayable(v.up.hs)
    ensures v.up.Answers?
    ensures var o := Handle(terms, routes, book', rows', again);
            var data := DataOnly(AllSeen(usageOf, Pieces(v.up.hs)));
            && o.reply == FromCache && o.book == book' && o.rows == rows'
            && Deliver(OpenAI(usageOf), Fresh(""), o.text, S.EOF, env) == (data, Complete)
            && DataOnly(Deliver(OpenAI(usageOf), Fresh(""), Handle(terms, routes, book, rows, v).text, S.EOF, env).0) == data
  {
    StoredExactly(terms, routes, book, rows, v);
    StoredFrames(terms, routes, book, rows, v);
    ReplayReadsAsLive(v.up.hs, usageOf, env);
    RelayRoundTrip(v.up.hs, usageOf, env);
    assert AllSeen(usageOf, Pieces(v.up.hs)) + [] == AllSeen(usageOf, Pieces(v.up.hs));
  }

  lemma StoredFrames(terms: Terms, routes: map<string, string>, book: Option<M.Book>, rows: seq<LedgerRow>, v: Visit)
    requires Handle(terms, routes, book, rows, v).stored.Some? && v.q.stream
    ensures var o := Handle(terms, routes, book, rows, v);
            && v.up.Answers? && o.stored.value.frames == Payloads(Pieces(v.up.hs)) && o.text == Written(v.up.hs, ERROR_FRAME)
  {
  }

  /** A stream is served from the cache only of an answer that was streamed, and only to a writer that
      can flush. */
  lemma StreamFromStream(terms: Terms, routes: map<string, string>, book: Option<M.Book>, rows: seq<LedgerRow>, v: Visit,
                       again: Visit, book': Option<M.Book>, rows': seq<LedgerRow>)
    requires FoundBy(terms, routes, book, rows, v, again) && again.q.stream
    ensures Handle(terms, routes, book', rows', again).reply == FromCache <==> v.q.stream && again.flushes
  {
  }

  /** A hit comes back empty, though answered from the cache, exactly when a body is asked for of an
      answer that was streamed, or of one whose body was empty to begin with. */
  lemma EmptyHitExactly(terms: Terms, routes: map<string, string>, book: Option<M.Book>, rows: seq<LedgerRow>, v: Visit,
                        again: Visit, book': Option<M.Book>, rows': seq<LedgerRow>)
    requires FoundBy(terms, routes, book, rows, v, again)
    ensures v.up.Answers?
    ensures var o := Handle(terms, routes, book', rows', again);
            o.reply == FromCache && o.text == "" <==> !again.q.stream && (v.q.stream || v.up.body == "")
  {
    if again.q.stream { NeverEmpty(again.hit.value.frames); }
  }

  lemma NeverEmpty(frames: seq<string>)
    ensures Written(Replayed(frames), ERROR_FRAME) != ""
  {
    if frames != [] { ReplayedStep(frames); }
  }

  /** One streamed answer, and the same question asked for as a body: served, with nothing in it. */
  lemma EmptyExample(terms: Terms, at: World)
    requires terms.estimator.None?
    ensures var routes := map["m" := "p"];
            var up := Answers("p", "m", Usage(1, 1, 2), "", [Received(Piece(false, "hello", None)), Ended(Complete)]);
            var v := Visit(Request("t", "m", true, "{\"stream\":true}"), None, up, true, 1000, 0, at);
            var o := Handle(terms, routes, None, [], v);
            var again := v.(q := Request("t", "m", false, "{\"stream\":false}"), hit := o.stored);
            && o.reply == Served && o.stored == Some(Stored("", ["hello"]))
            && Handle(terms, routes, None, [], again) == Outcome(None, [], FromCache, "", None)
  {
    var p, hs := Piece(false, "hello", None), [Received(Piece(false, "hello", None)), Ended(Complete)];
    assert hs[1..] == [Ended(Complete)] && Pieces(hs) == [p] + Pieces(hs[1..]) == [p];
    assert EndOf(hs) == EndOf(hs[1..]) == Some(Ended(Complete));
    assert Payloads([p]) == ["hello"] + Payloads([p][1..]) == ["hello"];
    assert Total(["hello"]) == 5 + Total(["hello"][1..]) == 5;
    assert |Opening(p)| == 13 && Delivered(hs, 1000) == Delivered(hs[1..], 987);
  }
}
