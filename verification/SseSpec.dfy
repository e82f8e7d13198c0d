/** What internal/providers/sse.go reads, as a function of the bytes of the body: framing as in
    the WHATWG HTML Living Standard, sections 9.2.5 and 9.2.6, with LF and CRLF line ends only.
    A body is a string with one char a byte, and the error its reader ends in. */
module SseSpec {
  import opened Common

  const MAX_EVENT: nat := 1_048_576

  datatype ReadErr = EOF | TooLarge | Deadline | Canceled | Other

  datatype SSEEvent = SSEEvent(name: string, data: string, hasData: bool, keepalive: bool)

  const KEEPALIVE := SSEEvent("", "", false, true)

  /** The event under construction: its name and the data lines so far. */
  datatype Partial = Partial(name: string, data: seq<string>) {
    predicate Empty() { data == [] && name == "" }
  }

  const NOTHING := Partial("", [])

  datatype Scan = Event(ev: SSEEvent, rest: string) | Stop(err: ReadErr)

  predicate IsBreak(c: char) { c == '\r' || c == '\n' }

  function TrimRight(s: string): string {
    if s != "" && IsBreak(s[|s| - 1]) then TrimRight(s[..|s| - 1]) else s
  }

  /** Length of the first line, its newline included; all of s when there is none. */
  function LineLen(s: string): (n: nat)
    ensures n <= |s| && (s != "" ==> n > 0)
  {
    if s == "" then 0 else if s[0] == '\n' then 1 else 1 + LineLen(s[1..])
  }

  predicate HasPrefix(s: string, prefix: string) { prefix <= s }

  function FieldValue(line: string, prefix: string): string
    requires prefix <= line
  {
    var v := line[|prefix|..];
    if v != "" && v[0] == ' ' then v[1..] else v
  }

  /** strings.Join with a newline. */
  function Join(data: seq<string>): string {
    if data == [] then "" else if |data| == 1 then data[0] else data[0] + "\n" + Join(data[1..])
  }

  /** A field line folded into the event; other lines carry nothing. */
  function Fold(p: Partial, trimmed: string): Partial {
    if HasPrefix(trimmed, "data:") then p.(data := p.data + [FieldValue(trimmed, "data:")])
    else if HasPrefix(trimmed, "event:") then p.(name := FieldValue(trimmed, "event:"))
    else p
  }

  function Built(p: Partial): SSEEvent {
    SSEEvent(p.name, Join(p.data), p.data != [], false)
  }

  /** What one line does: an event is complete, or reading goes on with what is left of the budget. */
  datatype OnLine = Yield(ev: SSEEvent) | Continue(p: Partial, remaining: nat)

  function ReadLine(trimmed: string, p: Partial, remaining: nat): OnLine {
    if trimmed == "" then
      // A blank line outside an event gives the next one a fresh budget.
      if p.Empty() then Continue(p, MAX_EVENT) else Yield(Built(p))
    else if trimmed[0] == ':' then
      if p.Empty() then Yield(KEEPALIVE) else Continue(p, remaining)
    else Continue(Fold(p, trimmed), remaining)
  }

  /** Next, from any point inside an event. An unterminated last line is read too, but an event
      still open when the body ends is dropped. */
  function NextFrom(rest: string, endErr: ReadErr, p: Partial, remaining: nat): (s: Scan)
    ensures s.Event? ==> |s.rest| < |rest| && |s.rest| <= |rest| - LineLen(rest)
    decreases |rest|
  {
    var n := LineLen(rest);
    if n > remaining then Stop(TooLarge)
    else if rest == "" then Stop(endErr)
    else match ReadLine(TrimRight(rest[..n]), p, remaining - n)
      case Yield(ev) => Event(ev, rest[n..])
      case Continue(p', left) =>
        if rest[n - 1] != '\n' then Stop(endErr) else NextFrom(rest[n..], endErr, p', left)
  }

  function Next(rest: string, endErr: ReadErr): Scan {
    NextFrom(rest, endErr, NOTHING, MAX_EVENT)
  }

  /** What is left after an event is the tail of what there was. */
  lemma {:induction false} EventConsumes(rest: string, endErr: ReadErr, p: Partial, remaining: nat)
    ensures var s := NextFrom(rest, endErr, p, remaining);
            s.Event? ==> s.rest == rest[|rest| - |s.rest|..]
    decreases |rest|
  {
    var n := LineLen(rest);
    if n <= remaining && rest != "" {
      var on := ReadLine(TrimRight(rest[..n]), p, remaining - n);
      if on.Continue? { EventConsumes(rest[n..], endErr, on.p, on.remaining); }
    }
  }

  /** An event that is not the end of the body ends with a line. */
  lemma {:induction false} EventEnds(rest: string, endErr: ReadErr, p: Partial, remaining: nat)
    ensures var s := NextFrom(rest, endErr, p, remaining);
            s.Event? && s.rest != "" ==> rest[|rest| - |s.rest| - 1] == '\n'
    decreases |rest|
  {
    var n := LineLen(rest);
    if n <= remaining && rest != "" {
      LineEnd(rest);
      var on := ReadLine(TrimRight(rest[..n]), p, remaining - n);
      if on.Continue? { EventEnds(rest[n..], endErr, on.p, on.remaining); }
    }
  }

  // ----- lines

  lemma LineLenSplit(a: string, b: string)
    requires '\n' !in a
    ensures LineLen(a + b) == |a| + LineLen(b)
  {
    if a == "" {
      assert a + b == b;
    } else {
      assert (a + b)[1..] == a[1..] + b;
    }
  }

  lemma LineEnd(s: string)
    requires s != ""
    ensures var n := LineLen(s);
            && '\n' !in s[..n - 1]
            && (s[n - 1] != '\n' ==> n == |s|)
  {
    if s[0] != '\n' && |s| > 1 {
      LineEnd(s[1..]);
      var n := LineLen(s);
      assert s[..n - 1] == [s[0]] + s[1..][..n - 2];
    }
  }

  lemma TrimKeepsHead(s: string)
    ensures TrimRight(s) <= s
    ensures TrimRight(s) == "" <==> forall i :: 0 <= i < |s| ==> IsBreak(s[i])
  {
  }

  // ----- data never ends in a CR

  predicate NoCREnd(s: string) { s == "" || s[|s| - 1] != '\r' }

  lemma {:induction false} TrimmedEnd(s: string)
    ensures NoCREnd(TrimRight(s))
  {
    if s != "" && IsBreak(s[|s| - 1]) { TrimmedEnd(s[..|s| - 1]); }
  }

  lemma {:induction false} JoinedEnd(data: seq<string>)
    requires forall d :: d in data ==> NoCREnd(d)
    ensures NoCREnd(Join(data))
  {
    if |data| > 1 {
      JoinedEnd(data[1..]);
      var tail := "\n" + Join(data[1..]);
      assert tail[|tail| - 1] != '\r' && Join(data) == data[0] + tail;
    }
  }

  /** Line ends are trimmed off every line, so the data of an event does not end in a CR. */
  lemma {:induction false} DataEndsClean(rest: string, endErr: ReadErr, p: Partial, remaining: nat)
    requires forall d :: d in p.data ==> NoCREnd(d)
    ensures NextFrom(rest, endErr, p, remaining).Event? ==> NoCREnd(NextFrom(rest, endErr, p, remaining).ev.data)
    decreases |rest|
  {
    var n := LineLen(rest);
    if n <= remaining && rest != "" {
      var trimmed := TrimRight(rest[..n]);
      var on := ReadLine(trimmed, p, remaining - n);
      TrimmedEnd(rest[..n]);
      JoinedEnd(p.data);
      if on.Continue? { DataEndsClean(rest[n..], endErr, on.p, on.remaining); }
    }
  }

  // ----- cutting a body short

  /** The event a cut at n closes before its time: the cut leaves a last line of CRs alone, which
      reads as a blank line, inside an event that holds something. */
  function EarlyFrom(body: string, n: nat, p: Partial, remaining: nat): Option<SSEEvent>
    requires n <= |body|
    decreases |body|
  {
    var k := LineLen(body);
    if n == 0 then None
    else if n < k then
      if n <= remaining && TrimRight(body[..n]) == "" && !p.Empty() then Some(Built(p)) else None
    else if k > remaining || body[k - 1] != '\n' then None
    else match ReadLine(TrimRight(body[..k]), p, remaining - k)
      case Yield(_) => None
      case Continue(p', left) => EarlyFrom(body[k..], n - k, p', left)
  }

  /** No line starts with a CR. */
  predicate NoCRLine(body: string) {
    forall i :: 0 <= i < |body| && body[i] == '\r' ==> i > 0 && body[i - 1] != '\n'
  }

  lemma {:induction false} NeverEarly(body: string, n: nat, p: Partial, remaining: nat)
    requires n <= |body| && NoCRLine(body)
    ensures EarlyFrom(body, n, p, remaining).None?
    decreases |body|
  {
    var k := LineLen(body);
    if 0 < n < k {
      TrimKeepsHead(body[..n]);
      LineEnd(body);
      assert body[..n][0] == body[0] == body[..k - 1][0];
    } else if 0 < n && k <= remaining && body[k - 1] == '\n' {
      var on := ReadLine(TrimRight(body[..k]), p, remaining - k);
      NoCRLineAfter(body, k);
      if on.Continue? { NeverEarly(body[k..], n - k, on.p, on.remaining); }
    }
  }

  lemma NoCRLineAfter(body: string, k: nat)
    requires NoCRLine(body) && 0 < k <= |body| && body[k - 1] == '\n'
    ensures NoCRLine(body[k..])
  {
    forall i | 0 <= i < |body| - k && body[k..][i] == '\r' ensures i > 0 && body[k..][i - 1] != '\n' {
      assert body[k + i] == '\r';
    }
  }

  /** A cut not right behind a CR closes nothing early. */
  lemma {:induction false} NotBehindCR(body: string, n: nat, p: Partial, remaining: nat)
    requires n <= |body| && (n > 0 ==> body[n - 1] != '\r')
    ensures EarlyFrom(body, n, p, remaining).None?
    decreases |body|
  {
    var k := LineLen(body);
    if 0 < n < k {
      TrimKeepsHead(body[..n]);
      LineEnd(body);
      assert body[..n][n - 1] == body[n - 1] == body[..k - 1][n - 1];
    } else if 0 < n && k <= remaining && body[k - 1] == '\n' {
      var on := ReadLine(TrimRight(body[..k]), p, remaining - k);
      if on.Continue? { NotBehindCR(body[k..], n - k, on.p, on.remaining); }
    }
  }

  /** What a cut that closes an event early reads: that event and nothing after it, while the whole
      body's event goes on past the cut. */
  lemma {:induction false} EarlyReads(body: string, n: nat, e1: ReadErr, e2: ReadErr, p: Partial, remaining: nat)
    requires n <= |body| && EarlyFrom(body, n, p, remaining).Some?
    ensures EarlyScan(body, n, EarlyFrom(body, n, p, remaining).value,
                      NextFrom(body, e2, p, remaining), NextFrom(body[..n], e1, p, remaining))
    decreases |body|, 1
  {
    if n < LineLen(body) {
      TornLine(body, n);
      assert body[..n][..n] == body[..n];
    } else {
      EarlyPastLine(body, body[..n], n, e1, e2, p, remaining, EarlyFrom(body, n, p, remaining).value);
    }
  }

  ghost predicate EarlyScan(body: string, n: nat, ev: SSEEvent, whole: Scan, cut: Scan) {
    cut == Event(ev, "") && (whole.Event? ==> |body| - |whole.rest| > n)
  }

  lemma {:induction false} EarlyPastLine(body: string, cut: string, n: nat, e1: ReadErr, e2: ReadErr, p: Partial, remaining: nat, ev: SSEEvent)
    requires 0 < LineLen(body) <= n <= |body| && cut == body[..n] && EarlyFrom(body, n, p, remaining) == Some(ev)
    ensures EarlyScan(body, n, ev, NextFrom(body, e2, p, remaining), NextFrom(cut, e1, p, remaining))
    decreases |body|, 0
  {
    var k := LineLen(body);
    WholeLine(body, n);
    LineEnd(body);
    Slices(body, k, n);
    assert LineLen(cut) == k && cut[..k] == body[..k] && cut[k - 1] == body[k - 1];
    var on := ReadLine(TrimRight(body[..k]), p, remaining - k);
    var tail, cutTail := body[k..], cut[k..];
    EarlyReads(tail, n - k, e1, e2, on.p, on.remaining);
    assert tail[..n - k] == cutTail;
  }

  /** Reading a body cut at n, against reading all of it: an event closed within n bytes is read
      the same; otherwise the cut body stops, or has the start of a comment line to show. */
  ghost predicate CutReads(body: string, n: nat, e1: ReadErr, whole: Scan, cut: Scan)
    requires n <= |body| && (whole.Event? ==> |whole.rest| <= |body|)
  {
    if whole.Event? && |body| - |whole.rest| <= n then
      cut == Event(whole.ev, body[|body| - |whole.rest|..n])
    else
      || cut == Stop(e1)
      || (whole == cut == Stop(TooLarge))
      || (cut == Event(KEEPALIVE, "") && (whole == Stop(TooLarge) || (whole.Event? && whole.ev == KEEPALIVE)))
  }

  lemma {:induction false} CutNext(body: string, n: nat, e1: ReadErr, e2: ReadErr, p: Partial, remaining: nat)
    requires n <= |body| && EarlyFrom(body, n, p, remaining).None?
    ensures CutReads(body, n, e1, NextFrom(body, e2, p, remaining), NextFrom(body[..n], e1, p, remaining))
    decreases |body|, 1
  {
    if 0 < n < LineLen(body) {
      CutTorn(body, n, e1, e2, p, remaining);
    } else if 0 < n {
      CutPastLine(body, body[..n], n, e1, e2, p, remaining);
    }
  }

  lemma Slices(body: string, k: nat, n: nat)
    requires k <= n <= |body|
    ensures body[..n][..k] == body[..k] && body[..n][k..] == body[k..n] && body[k..][..n - k] == body[k..n]
  {
  }

  /** Reading goes on behind the first line. */
  predicate GoesOn(body: string, p: Partial, remaining: nat) {
    var k := LineLen(body);
    0 < k <= remaining && body[k - 1] == '\n' && ReadLine(TrimRight(body[..k]), p, remaining - k).Continue?
  }

  lemma {:induction false} CutPastLine(body: string, cut: string, n: nat, e1: ReadErr, e2: ReadErr, p: Partial, remaining: nat)
    requires 0 < LineLen(body) <= n <= |body| && cut == body[..n]
    requires GoesOn(body, p, remaining) ==>
               var k := LineLen(body); var on := ReadLine(TrimRight(body[..k]), p, remaining - k);
               EarlyFrom(body[k..], n - k, on.p, on.remaining).None?
    ensures CutReads(body, n, e1, NextFrom(body, e2, p, remaining), NextFrom(cut, e1, p, remaining))
    decreases |body|, 0
  {
    var k := LineLen(body);
    WholeLine(body, n);
    LineEnd(body);
    Slices(body, k, n);
    assert LineLen(cut) == k && cut[..k] == body[..k] && cut[k - 1] == body[k - 1];
    if GoesOn(body, p, remaining) {
      var on := ReadLine(TrimRight(body[..k]), p, remaining - k);
      var tail, cutTail := body[k..], cut[k..];
      CutNext(tail, n - k, e1, e2, on.p, on.remaining);
      assert tail[..n - k] == cutTail;
      CutReadsOn(body, k, n, e1, NextFrom(tail, e2, on.p, on.remaining), NextFrom(cutTail, e1, on.p, on.remaining));
    }
  }

  /** What holds from the second line on holds of the body. */
  lemma CutReadsOn(body: string, k: nat, n: nat, e1: ReadErr, whole: Scan, cut: Scan)
    requires k <= n <= |body| && (whole.Event? ==> |whole.rest| <= |body| - k)
    requires CutReads(body[k..], n - k, e1, whole, cut)
    ensures CutReads(body, n, e1, whole, cut)
  {
    if whole.Event? && |body| - |whole.rest| <= n {
      var from := |body| - |whole.rest|;
      assert body[k..][from - k..n - k] == body[from..n];
    }
  }

  lemma CutTorn(body: string, n: nat, e1: ReadErr, e2: ReadErr, p: Partial, remaining: nat)
    requires 0 < n < LineLen(body) && EarlyFrom(body, n, p, remaining).None?
    ensures CutReads(body, n, e1, NextFrom(body, e2, p, remaining), NextFrom(body[..n], e1, p, remaining))
  {
    TornLine(body, n);
    assert body[..n][..n] == body[..n];
  }

  /** A first line that lies within the cut is the first line of the cut body. */
  lemma {:induction false} WholeLine(body: string, n: nat)
    requires 0 < LineLen(body) <= n <= |body|
    ensures LineLen(body[..n]) == LineLen(body)
  {
    var k := LineLen(body);
    LineEnd(body);
    if body[k - 1] == '\n' {
      assert body[..n] == body[..k - 1] + (['\n'] + body[k..n]);
      LineLenSplit(body[..k - 1], ['\n'] + body[k..n]);
    } else {
      assert body[..n] == body;
    }
  }

  /** A first line cut in two leaves a last line that starts alike, unless nothing of it but CRs
      is left. */
  lemma TornLine(body: string, n: nat)
    requires 0 < n < LineLen(body)
    ensures LineLen(body[..n]) == n && body[n - 1] != '\n'
    ensures var torn := TrimRight(body[..n]); var all := TrimRight(body[..LineLen(body)]);
            && (torn != "" ==> torn[0] == body[0])
            && (body[0] == ':' ==> torn != "" && all != "" && all[0] == ':')
  {
    var k := LineLen(body);
    LineEnd(body);
    assert body[n - 1] in body[..k - 1];
    assert body[..n] + "" == body[..n];
    LineLenSplit(body[..n], "");
    TrimKeepsHead(body[..n]);
    TrimKeepsHead(body[..k]);
    assert body[..k][0] == body[0] == body[..n][0];
  }
}
