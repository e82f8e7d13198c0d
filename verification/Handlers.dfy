/** The request path of internal/ingress/handlers.go, from the cache lookup to the closed books. */
module Handlers {
  import opened Common
  import opened StreamSpec
  import opened RelaySpec
  import opened RelayTheorems
  import opened Relay
  import M = BudgetModel
  import opened Guard

  /** A parsed request, authenticated as tenant. */
  datatype Request = Request(tenant: M.TenantID, model: string, stream: bool, raw: string)

  /** A stored answer: frames if it was streamed, a body if it was not. */
  datatype Stored = Stored(body: string, frames: seq<string>)

  /** What the upstream does with the call; provider and model are "" when it does not say. */
  datatype Upstream =
    | Fails
    | Answers(provider: string, model: string, usage: Usage, body: string, hs: seq<Happening>)

  datatype Reply = NotServed | FromCache | Refused(d: M.Denial) | UpstreamFailed | Unstreamable | Served

  function Or(a: string, b: string): string { if a != "" then a else b }

  /** Only a stored stream can answer a stream, and only to a writer that can flush. */
  predicate Serveable(q: Request, hit: Option<Stored>, flushes: bool) {
    hit.Some? && (q.stream ==> flushes && hit.value.frames != [])
  }

  function CachedText(q: Request, hit: Stored): string {
    if q.stream then Written(Replayed(hit.frames), ERROR_FRAME) else hit.body
  }

  /** The usage a request is closed with; None when nothing was measured. */
  function Measured(q: Request, up: Upstream, flushes: bool, room: nat): Option<Usage> {
    if up.Fails? || (q.stream && !flushes) then None
    else if q.stream then LastUsage(Taken(Pieces(up.hs), room))
    else Some(up.usage)
  }

  /** Settled with what was measured, or released. */
  function CloseOut(b: M.Book, r: M.Reservation, used: Option<Usage>, usd: real, w: World): M.Book {
    if used.None? then M.Release(b, r, w.now) else SettleNow(b, r, used.value.total, usd, w)
  }

  /** What may be stored of a relayed stream. */
  function Storable(hs: seq<Happening>, room: nat): Option<Stored> {
    var frames := Payloads(Pieces(hs));
    if EndsComplete(hs) && Delivered(hs, room) && frames != [] && Total(frames) <= MAX_CACHED
    then Some(Stored("", frames)) else None
  }

  // ----- what one request does, as a function

  /** One request and everything the world does about it: what the cache holds, what the upstream
      answers, whether the writer flushes and how many bytes its client takes, and the clock. */
  datatype Visit = Visit(q: Request, hit: Option<Stored>, up: Upstream, flushes: bool, room: nat, start: int, at: World)

  /** What it leaves: books, ledger rows, the kind of reply, the text of an answer, what to store. */
  datatype Outcome = Outcome(book: Option<M.Book>, rows: seq<LedgerRow>, reply: Reply, text: string, stored: Option<Stored>)

  predicate Routed(routes: map<string, string>, v: Visit) { v.q.model != "" && v.q.model in routes }

  /** A stream that its writer cannot flush is not asked of any upstream. */
  predicate Streams(v: Visit) { v.q.stream ==> v.flushes }

  function Used(v: Visit): Option<Usage> { Measured(v.q, v.up, v.flushes, v.room) }

  /** The model and the provider a request is billed under. */
  function Billed(v: Visit, provider: string): (string, string) {
    if v.up.Fails? then (v.q.model, provider) else (Or(v.up.model, v.q.model), Or(v.up.provider, provider))
  }

  function Charged(terms: Terms, v: Visit, provider: string): real {
    if Used(v).None? then 0.0 else terms.Price(Billed(v, provider).1, Billed(v, provider).0, Used(v).value)
  }

  function RowsFor(terms: Terms, r: M.Reservation, v: Visit, provider: string): seq<LedgerRow> {
    if Used(v).None? || !terms.keepsLedger || !v.at.writes then []
    else [terms.RowFor(r, Used(v).value, Charged(terms, v, provider), Billed(v, provider).0, Billed(v, provider).1, v.at.stamp)]
  }

  function Begun(terms: Terms, book: Option<M.Book>, q: Request, start: int): (Option<M.Book>, Result<Option<M.Reservation>, M.Denial>) {
    if book.None? || terms.estimator.None? then (book, Ok(None))
    else
      var (b, a) := M.Reserve(book.value, q.tenant, terms.estimator.value(q.model, q.raw), start);
      (Some(b), match a case Granted(r) => Ok(Some(r)) case Denied(d) => Err(d))
  }

  function Closed(terms: Terms, book: Option<M.Book>, rows: seq<LedgerRow>, v: Visit, provider: string,
                  r: Option<M.Reservation>): (Option<M.Book>, seq<LedgerRow>)
  {
    if r.None? || book.None? then (book, rows)
    else (Some(CloseOut(book.value, r.value, Used(v), Charged(terms, v, provider), v.at)), rows + RowsFor(terms, r.value, v, provider))
  }

  /** The reply to a request the cache did not answer and the budget let through. */
  function ReplyTo(v: Visit): Reply {
    if !Streams(v) then Unstreamable else if v.up.Fails? then UpstreamFailed else Served
  }

  function AnswerText(v: Visit): string {
    if ReplyTo(v) != Served then "" else if v.q.stream then Written(v.up.hs, ERROR_FRAME) else v.up.body
  }

  function AnswerStored(v: Visit): Option<Stored> {
    if ReplyTo(v) != Served then None else if v.q.stream then Storable(v.up.hs, v.room) else Some(Stored(v.up.body, []))
  }

  /** The cache first, then the budget, then the provider. */
  function Handle(terms: Terms, routes: map<string, string>, book: Option<M.Book>, rows: seq<LedgerRow>, v: Visit): Outcome {
    if !Routed(routes, v) then Outcome(book, rows, NotServed, "", None)
    else if Serveable(v.q, v.hit, v.flushes) then Outcome(book, rows, FromCache, CachedText(v.q, v.hit.value), None)
    else Admitted(terms, book, rows, v, routes[v.q.model])
  }

  function Admitted(terms: Terms, book: Option<M.Book>, rows: seq<LedgerRow>, v: Visit, provider: string): Outcome {
    var (before, a) := Begun(terms, book, v.q, v.start);
    match a
    case Err(d) => Outcome(before, rows, Refused(d), "", None)
    case Ok(r) => Answered(terms, before, rows, v, provider, r)
  }

  function Answered(terms: Terms, book: Option<M.Book>, rows: seq<LedgerRow>, v: Visit, provider: string,
                    r: Option<M.Reservation>): Outcome
  {
    var (after, rows') := Closed(terms, book, rows, v, provider, r);
    Outcome(after, rows', ReplyTo(v), AnswerText(v), AnswerStored(v))
  }

  // ----- the server

  class Server {
    const accounting: Guard?
    /** Routed model to the name of the provider behind it. */
    const routes: map<string, string>

    constructor (accounting: Guard?, routes: map<string, string>)
      ensures this.accounting == accounting && this.routes == routes
    {
      this.accounting, this.routes := accounting, routes;
    }

    ghost predicate Valid()
      reads this, accounting, Footprint()
    {
      accounting != null ==> accounting.Valid()
    }

    ghost function Footprint(): set<object?>
      reads this, accounting
    {
      if accounting != null then {accounting.enforcer, accounting.ledger} else {}
    }

    /** Everything closing a reservation can write. */
    ghost function Owned(): set<object?>
      reads this, accounting, Footprint()
    {
      Footprint() +
      (if accounting != null && accounting.enforcer != null then accounting.enforcer.Records() + {accounting.enforcer.store} else {})
    }

    ghost function Book(): Option<M.Book>
      reads this, accounting, Footprint(), Owned()
    {
      if accounting != null then accounting.Book() else None
    }

    ghost function Rows(): seq<LedgerRow>
      reads this, accounting, Footprint()
    {
      if accounting != null then accounting.Rows() else []
    }

    function OnTerms(): Terms {
      if accounting == null then Terms(None, None, None, false) else accounting.OnTerms()
    }

    /** The books and rows after a reservation is closed, given what they were. */
    ghost predicate ClosedWith(book: Option<M.Book>, rows: seq<LedgerRow>, r: Option<M.Reservation>, used: Option<Usage>,
                               model: string, provider: string, w: World)
      reads this, accounting, Footprint(), Owned()
    {
      var usd := if used.None? then 0.0 else OnTerms().Price(provider, model, used.value);
      if r.None? || book.None? then Book() == book && Rows() == rows
      else
        && Book() == Some(CloseOut(book.value, r.value, used, usd, w))
        && Rows() == rows + if used.None? || !OnTerms().keepsLedger || !w.writes then []
                            else [OnTerms().RowFor(r.value, used.value, usd, model, provider, w.stamp)]
    }

    /** Closes a reservation: with what was measured, or by giving the claim back. */
    method SettleOrAbort(r: Option<M.Reservation>, used: Option<Usage>, model: string, provider: string, w: World)
      requires Valid()
      modifies Owned()
      ensures Valid() && fresh(Owned() - old(Owned()))
      ensures ClosedWith(old(Book()), old(Rows()), r, used, model, provider, w)
    {
      if accounting == null || r.None? {
        return;
      }
      if used.None? {
        accounting.Abort(r, w.now);
        return;
      }
      var _ := accounting.Settle(r, used.value, model, provider, w);
    }

    /** A whole answer: its reservation closed, the answer handed out to store and written. */
    method ServeChat(w: ResponseWriter, v: Visit, provider: string, r: Option<M.Reservation>)
      returns (reply: Reply, stored: Option<Stored>)
      requires Valid() && !v.q.stream && w !in Owned() && w.room == v.room
      modifies w, Owned()
      ensures Valid() && fresh(Owned() - old(Owned()))
      ensures (Book(), Rows()) == Closed(OnTerms(), old(Book()), old(Rows()), v, provider, r)
      ensures reply == ReplyTo(v) && stored == AnswerStored(v)
      ensures w.out == old(w.out) + Cap(AnswerText(v), v.room)
    {
      if v.up.Fails? {
        SettleOrAbort(r, None, v.q.model, provider, v.at);
        return UpstreamFailed, None;
      }
      SettleOrAbort(r, Some(v.up.usage), Or(v.up.model, v.q.model), Or(v.up.provider, provider), v.at);
      stored := Some(Stored(v.up.body, []));
      var _ := w.Write(v.up.body);
      reply := Served;
    }

    /** What runs however the relay ended. */
    method SettleStream(tally: StreamTally, r: Option<M.Reservation>, billed: string, answered: string, at: World)
      returns (stored: Option<Stored>)
      requires Valid() && tally.recorder.Valid()
      modifies Owned()
      ensures Valid() && fresh(Owned() - old(Owned()))
      ensures ClosedWith(old(Book()), old(Rows()), r, old(tally.lastUsage), billed, answered, at)
      ensures stored == if old(tally.completed) then old(ToStore(tally)) else None
    {
      stored := None;
      var used := tally.lastUsage;
      ghost var book, rows := Book(), Rows();
      if tally.completed {
        stored := Remember(tally);
      }
      assert Valid() && Book() == book && Rows() == rows;
      SettleOrAbort(r, used, billed, answered, at);
    }

    static ghost function ToStore(tally: StreamTally): Option<Stored>
      reads tally, tally.recorder
    {
      if tally.recorder.given != [] && Total(tally.recorder.given) <= MAX_CACHED then Some(Stored("", tally.recorder.given)) else None
    }

    static method Remember(tally: StreamTally) returns (stored: Option<Stored>)
      requires tally.recorder.Valid()
      ensures stored == ToStore(tally)
    {
      var frames := tally.recorder.Entry();
      stored := if frames.Some? then Some(Stored("", frames.value)) else None;
    }

    /** A stream: relayed, and then, however it ended, handed out to store if whole and closed with
        the last usage reported. */
    method ServeStreamed(w: ResponseWriter, v: Visit, provider: string, r: Option<M.Reservation>)
      returns (reply: Reply, stored: Option<Stored>)
      requires Valid() && v.q.stream && w !in Owned() && w.room == v.room
      modifies w, Owned()
      ensures Valid() && fresh(Owned() - old(Owned()))
      ensures (Book(), Rows()) == Closed(OnTerms(), old(Book()), old(Rows()), v, provider, r)
      ensures reply == ReplyTo(v) && stored == AnswerStored(v)
      ensures w.out == old(w.out) + Cap(AnswerText(v), v.room)
    {
      if !v.flushes {
        AbortFor(v, provider, r);
        return Unstreamable, None;
      }
      if v.up.Fails? {
        AbortFor(v, provider, r);
        return UpstreamFailed, None;
      }
      ghost var book, rows := Book(), Rows();
      var tally := Relay.ServeStream(w, v.up.hs);
      assert Valid() && Book() == book && Rows() == rows;
      stored := SettleStream(tally, r, Or(v.up.model, v.q.model), Or(v.up.provider, provider), v.at);
      reply := Served;
    }

    method AbortFor(v: Visit, provider: string, r: Option<M.Reservation>)
      requires Valid() && Used(v).None?
      modifies Owned()
      ensures Valid() && fresh(Owned() - old(Owned()))
      ensures (Book(), Rows()) == Closed(OnTerms(), old(Book()), old(Rows()), v, provider, r)
    {
      SettleOrAbort(r, None, v.q.model, provider, v.at);
    }

    method Admit(q: Request, start: int) returns (a: Result<Option<M.Reservation>, M.Denial>)
      requires Valid()
      modifies Owned()
      ensures Valid() && fresh(Owned() - old(Owned())) && Rows() == old(Rows())
      ensures (Book(), a) == Begun(OnTerms(), old(Book()), q, start)
    {
      if accounting == null {
        return Ok(None);
      }
      a := accounting.Begin(q.tenant, q.model, q.raw, start);
    }

    /** Books, rows, reply, bytes and what to store are those of o. */
    ghost predicate LeavesBehind(w: ResponseWriter, out: string, v: Visit, reply: Reply, stored: Option<Stored>, o: Outcome)
      reads this, accounting, Footprint(), Owned(), w
    {
      o == Outcome(Book(), Rows(), reply, o.text, stored) && w.out == out + Cap(o.text, v.room)
    }

    method Serve(w: ResponseWriter, v: Visit, provider: string, r: Option<M.Reservation>)
      returns (reply: Reply, stored: Option<Stored>)
      requires Valid() && w !in Owned() && w.room == v.room
      modifies w, Owned()
      ensures Valid() && fresh(Owned() - old(Owned()))
      ensures LeavesBehind(w, old(w.out), v, reply, stored, Answered(OnTerms(), old(Book()), old(Rows()), v, provider, r))
    {
      if v.q.stream {
        reply, stored := ServeStreamed(w, v, provider, r);
      } else {
        reply, stored := ServeChat(w, v, provider, r);
      }
    }

    /** The budget, then the provider. */
    method Answer(w: ResponseWriter, v: Visit, provider: string) returns (reply: Reply, stored: Option<Stored>)
      requires Valid() && w !in Owned() && w.room == v.room
      modifies w, Owned()
      ensures Valid()
      ensures LeavesBehind(w, old(w.out), v, reply, stored, Admitted(OnTerms(), old(Book()), old(Rows()), v, provider))
    {
      var a := Admit(v.q, v.start);
      if a.Err? {
        assert Cap("", v.room) == "";
        return Refused(a.error), None;
      }
      reply, stored := Serve(w, v, provider, a.value);
    }

    /** Everything a request leaves behind is what Handle says, for every request and every world. */
    method HandleChatCompletions(w: ResponseWriter, v: Visit) returns (reply: Reply, stored: Option<Stored>)
      requires Valid() && w !in Owned() && w.room == v.room
      modifies w, Owned()
      ensures Valid()
      ensures LeavesBehind(w, old(w.out), v, reply, stored, Handle(OnTerms(), routes, old(Book()), old(Rows()), v))
    {
      if v.q.model == "" || v.q.model !in routes {
        assert w.out == w.out + Cap("", v.room);
        return NotServed, None;
      }
      ghost var book, rows, out := Book(), Rows(), w.out;
      var served := TryCache(w, v);
      if served {
        assert Handle(OnTerms(), routes, book, rows, v) == Outcome(book, rows, FromCache, CachedText(v.q, v.hit.value), None);
        return FromCache, None;
      }
      assert Handle(OnTerms(), routes, book, rows, v) == Admitted(OnTerms(), book, rows, v, routes[v.q.model]);
      reply, stored := Answer(w, v, routes[v.q.model]);
    }

    /** A hit is served without the books or the ledger being touched. */
    method TryCache(w: ResponseWriter, v: Visit) returns (served: bool)
      requires Valid() && w !in Owned() && w.room == v.room
      modifies w
      ensures Valid() && Owned() == old(Owned()) && Book() == old(Book()) && Rows() == old(Rows())
      ensures served == Serveable(v.q, v.hit, v.flushes)
      ensures if served then w.out == old(w.out) + Cap(CachedText(v.q, v.hit.value), v.room)
              else w.out == old(w.out) && w.room == v.room
    {
      if v.hit.None? {
        return false;
      }
      assert w.out + "" == w.out;
      served := ServeCached(w, v.q, v.hit.value, v.flushes);
    }
  }

  /** A stored answer, in the form asked for; false when it was not stored in that form. */
  method ServeCached(w: ResponseWriter, q: Request, entry: Stored, flushes: bool) returns (served: bool)
    modifies w
    ensures served == Serveable(q, Some(entry), flushes)
    ensures w.out == old(w.out) + if !served then "" else Cap(CachedText(q, entry), old(w.room))
    ensures !served ==> w.room == old(w.room)
  {
    if q.stream {
      if !flushes || entry.frames == [] {
        return false;
      }
      ReplayStream(w, entry.frames);
      return true;
    }
    var _ := w.Write(entry.body);
    served := true;
  }
}
