/** Events written out line by line, as section 9.2.5 of the WHATWG HTML Living Standard lets a server
    write them, and read back. */
module SseRoundTrip {
  import opened SseSpec

  /** One line of an event. A single space after the colon is no part of a value. */
  datatype Field =
    | Data(value: string, space: bool)
    | Named(value: string, space: bool)
    | Comment(value: string)
    | Unknown(text: string)

  datatype Line = Line(field: Field, crlf: bool)

  function Spaced(value: string, space: bool): string { if space then " " + value else value }

  function Text(f: Field): string {
    match f
    case Data(v, space) => "data:" + Spaced(v, space)
    case Named(v, space) => "event:" + Spaced(v, space)
    case Comment(v) => ":" + v
    case Unknown(text) => text
  }

  function Ending(crlf: bool): string { if crlf then "\r\n" else "\n" }

  function Encoded(lines: seq<Line>): string {
    if lines == [] then "" else Text(lines[0].field) + Ending(lines[0].crlf) + Encoded(lines[1..])
  }

  /** A value has no line end in it or behind it, and shows a space of its own only behind another. */
  predicate ValueOK(v: string, space: bool) {
    '\n' !in v && (v != "" ==> v[|v| - 1] != '\r') && (!space && v != "" ==> v[0] != ' ')
  }

  predicate FieldOK(f: Field) {
    match f
    case Data(v, space) => ValueOK(v, space)
    case Named(v, space) => ValueOK(v, space)
    case Comment(v) => '\n' !in v && (v != "" ==> v[|v| - 1] != '\r')
    case Unknown(text) =>
      && text != "" && '\n' !in text && text[|text| - 1] != '\r' && text[0] != ':'
      && !("data:" <= text) && !("event:" <= text)
  }

  /** What a line adds to an event. */
  function Taking(p: Partial, f: Field): Partial {
    match f
    case Data(v, _) => p.(data := p.data + [v])
    case Named(v, _) => p.(name := v)
    case _ => p
  }

  /** Well-formed lines, with a comment only where something has been added. */
  predicate AllOK(lines: seq<Line>, p: Partial) {
    lines == [] ||
    var f := lines[0].field;
    FieldOK(f) && (f.Comment? ==> !p.Empty()) && AllOK(lines[1..], Taking(p, f))
  }

  /** The values of the data lines, in order. */
  function DataOf(lines: seq<Line>): seq<string> {
    if lines == [] then [] else (if lines[0].field.Data? then [lines[0].field.value] else []) + DataOf(lines[1..])
  }

  /** The value of the last event line, or name if there is none. */
  function NameOf(lines: seq<Line>, name: string): string {
    if lines == [] then name else NameOf(lines[1..], if lines[0].field.Named? then lines[0].field.value else name)
  }

  /** s cut at every newline. */
  function SplitLines(s: string): (out: seq<string>)
    ensures out != []
  {
    if s == "" then [""]
    else
      var rest := SplitLines(s[1..]);
      if s[0] == '\n' then [""] + rest else [[s[0]] + rest[0]] + rest[1..]
  }

  lemma {:induction false} SplitHead(d: string, rest: string)
    requires '\n' !in d
    ensures SplitLines(d + "\n" + rest) == [d] + SplitLines(rest)
    ensures SplitLines(d) == [d]
  {
    if d == "" {
      assert "" + "\n" + rest == "\n" + rest && ("\n" + rest)[1..] == rest;
    } else {
      SplitHead(d[1..], rest);
      assert (d + "\n" + rest)[1..] == d[1..] + "\n" + rest;
      assert [d[0]] + d[1..] == d;
    }
  }

  /** Joined lines come apart as they were. */
  lemma {:induction false} JoinSplits(data: seq<string>)
    requires data != [] && forall d :: d in data ==> '\n' !in d
    ensures SplitLines(Join(data)) == data
  {
    if |data| == 1 {
      SplitHead(data[0], "");
      assert data == [data[0]];
    } else {
      JoinSplits(data[1..]);
      SplitHead(data[0], Join(data[1..]));
      assert data[0] + "\n" + Join(data[1..]) == Join(data) && data == [data[0]] + data[1..];
    }
  }

  // ----- one line

  lemma {:induction false} TrimOne(s: string, c: char)
    requires IsBreak(c)
    ensures TrimRight(s + [c]) == TrimRight(s)
  {
    assert (s + [c])[..|s|] == s;
  }

  lemma {:induction false} TrimEnding(text: string, crlf: bool)
    requires text != "" ==> !IsBreak(text[|text| - 1])
    ensures TrimRight(text + Ending(crlf)) == text
  {
    if crlf {
      assert text + "\r\n" == (text + ['\r']) + ['\n'];
      TrimOne(text + ['\r'], '\n');
      TrimOne(text, '\r');
    } else {
      TrimOne(text, '\n');
    }
  }

  lemma {:induction false} FirstLine(text: string, crlf: bool, tail: string)
    requires '\n' !in text
    ensures var line := text + Ending(crlf);
            var all := line + tail;
            LineLen(all) == |line| && all[..|line|] == line && all[|line|..] == tail && line[|line| - 1] == '\n'
  {
    var head := if crlf then text + "\r" else text;
    assert text + Ending(crlf) + tail == head + ("\n" + tail);
    LineLenSplit(head, "\n" + tail);
  }

  lemma {:induction false} SpacedValue(prefix: string, v: string, space: bool)
    requires ValueOK(v, space) && |prefix| > 0 && !IsBreak(prefix[|prefix| - 1]) && '\n' !in prefix
    ensures var text := prefix + Spaced(v, space);
            && '\n' !in text && !IsBreak(text[|text| - 1]) && prefix <= text && FieldValue(text, prefix) == v
  {
    var text := prefix + Spaced(v, space);
    assert text[|prefix|..] == Spaced(v, space);
    assert (" " + v)[1..] == v;
    assert text[|text| - 1] == (if Spaced(v, space) == "" then prefix[|prefix| - 1] else Spaced(v, space)[|Spaced(v, space)| - 1]);
  }

  lemma {:induction false} TextOK(f: Field)
    requires FieldOK(f)
    ensures var t := Text(f);
            t != "" && (t[0] == ':' <==> f.Comment?) && '\n' !in t && !IsBreak(t[|t| - 1])
  {
    match f
    case Data(v, space) => SpacedValue("data:", v, space);
    case Named(v, space) => SpacedValue("event:", v, space);
    case _ =>
  }

  lemma {:induction false} Folds(p: Partial, f: Field)
    requires FieldOK(f)
    ensures Fold(p, Text(f)) == Taking(p, f)
  {
    match f
    case Data(v, space) => SpacedValue("data:", v, space);
    case Named(v, space) =>
      SpacedValue("event:", v, space);
      assert Text(f)[0] == 'e';
    case Comment(v) => assert Text(f)[0] == ':';
    case Unknown(_) =>
  }

  lemma {:induction false} LineFolds(p: Partial, l: Line, left: nat)
    requires FieldOK(l.field) && (l.field.Comment? ==> !p.Empty())
    ensures ReadLine(TrimRight(Text(l.field) + Ending(l.crlf)), p, left) == Continue(Taking(p, l.field), left)
  {
    Folds(p, l.field);
    TextOK(l.field);
    TrimEnding(Text(l.field), l.crlf);
  }

  // ----- all of them

  /** A line that closes nothing is read, and reading goes on behind it. */
  lemma {:induction false} OneRead(all: string, line: string, rest: string, endErr: ReadErr, p: Partial, p': Partial, remaining: nat)
    requires all != "" && all == line + rest && LineLen(all) == |line| <= remaining && line[|line| - 1] == '\n'
    requires ReadLine(TrimRight(line), p, remaining - |line|) == Continue(p', remaining - |line|)
    ensures NextFrom(all, endErr, p, remaining) == NextFrom(rest, endErr, p', remaining - |line|)
  {
    assert all[..|line|] == line && all[|line|..] == rest;
  }

  lemma {:induction false} BlankCloses(all: string, line: string, tail: string, endErr: ReadErr, p: Partial, remaining: nat)
    requires all == line + tail && LineLen(all) == |line| && line != "" && TrimRight(line) == "" && |line| <= remaining && !p.Empty()
    ensures NextFrom(all, endErr, p, remaining) == Event(Built(p), tail)
  {
    assert all[..|line|] == line && all[|line|..] == tail;
  }

  lemma {:induction false} BlankRead(crlf: bool, tail: string, endErr: ReadErr, p: Partial, remaining: nat)
    requires !p.Empty() && 2 <= remaining
    ensures NextFrom(Ending(crlf) + tail, endErr, p, remaining) == Event(Built(p), tail)
  {
    FirstLine("", crlf, tail);
    TrimEnding("", crlf);
    assert "" + Ending(crlf) == Ending(crlf);
    BlankCloses(Ending(crlf) + tail, Ending(crlf), tail, endErr, p, remaining);
  }

  lemma {:induction false} LineGoesOn(all: string, l: Line, line: string, rest: string, endErr: ReadErr, p: Partial, remaining: nat)
    requires FieldOK(l.field) && (l.field.Comment? ==> !p.Empty())
    requires line == Text(l.field) + Ending(l.crlf) && |line| <= remaining && all == line + rest
    ensures NextFrom(all, endErr, p, remaining) == NextFrom(rest, endErr, Taking(p, l.field), remaining - |line|)
  {
    TextOK(l.field);
    FirstLine(Text(l.field), l.crlf, rest);
    LineFolds(p, l, remaining - |line|);
    OneRead(all, line, rest, endErr, p, Taking(p, l.field), remaining);
  }

  /** What p comes to once lines are taken. */
  function TakingAll(p: Partial, lines: seq<Line>): Partial { Partial(NameOf(lines, p.name), p.data + DataOf(lines)) }

  lemma TakenSoFar(lines: seq<Line>, p: Partial)
    requires lines != []
    ensures TakingAll(Taking(p, lines[0].field), lines[1..]) == TakingAll(p, lines)
  {
    var d := DataOf(lines[1..]);
    match lines[0].field
    case Data(v, _) => assert (p.data + [v]) + d == p.data + ([v] + d);
    case _ => assert [] + d == d;
  }

  lemma {:induction false} EncodedSplit(lines: seq<Line>, last: string)
    requires lines != []
    ensures var line := Text(lines[0].field) + Ending(lines[0].crlf);
            Encoded(lines) + last == line + (Encoded(lines[1..]) + last) && |Encoded(lines)| == |line| + |Encoded(lines[1..])|
  {
  }

  lemma {:induction false} LinesRead(all: string, lines: seq<Line>, crlf: bool, tail: string, endErr: ReadErr, p: Partial, remaining: nat)
    requires all == Encoded(lines) + (Ending(crlf) + tail)
    requires AllOK(lines, p) && |Encoded(lines)| + 2 <= remaining && !TakingAll(p, lines).Empty()
    ensures NextFrom(all, endErr, p, remaining) == Event(Built(TakingAll(p, lines)), tail)
    decreases |lines|
  {
    var last := Ending(crlf) + tail;
    if lines == [] {
      assert all == last && p.data + [] == p.data;
      BlankRead(crlf, tail, endErr, p, remaining);
    } else {
      var rest, left := NextLine(all, lines, last, endErr, p, remaining);
      TakenSoFar(lines, p);
      LinesRead(rest, lines[1..], crlf, tail, endErr, Taking(p, lines[0].field), left);
    }
  }

  /** The first line read, what is left of text and budget, and that reading goes on there. */
  lemma {:induction false} NextLine(all: string, lines: seq<Line>, last: string, endErr: ReadErr, p: Partial, remaining: nat)
    returns (rest: string, left: nat)
    requires lines != [] && all == Encoded(lines) + last && AllOK(lines, p) && |Encoded(lines)| + 2 <= remaining
    ensures rest == Encoded(lines[1..]) + last && |Encoded(lines[1..])| + 2 <= left
    ensures NextFrom(all, endErr, p, remaining) == NextFrom(rest, endErr, Taking(p, lines[0].field), left)
  {
    var line := Text(lines[0].field) + Ending(lines[0].crlf);
    EncodedSplit(lines, last);
    rest, left := Encoded(lines[1..]) + last, remaining - |line|;
    LineGoesOn(all, lines[0], line, rest, endErr, p, remaining);
  }

  /** A comment where no event has begun is passed on as a sign of life. */
  lemma {:induction false} CommentIsKeepalive(v: string, crlf: bool, tail: string, endErr: ReadErr)
    requires FieldOK(Comment(v)) && |v| + 3 <= MAX_EVENT
    ensures Next((":" + v) + Ending(crlf) + tail, endErr) == Event(KEEPALIVE, tail)
  {
    var line := (":" + v) + Ending(crlf);
    TextOK(Comment(v));
    FirstLine(":" + v, crlf, tail);
    TrimEnding(":" + v, crlf);
    assert (line + tail)[..|line|] == line && (line + tail)[|line|..] == tail;
  }

  /** An event of any lines, each ended by LF or CRLF and closed by a blank one, within the budget, is
      read back: its name is the last named, its data the data lines' values and nothing else, and what
      is behind it is left. Comments inside it, and fields of other names, are nothing. */
  lemma EventReadsBack(lines: seq<Line>, crlf: bool, tail: string, endErr: ReadErr)
    requires AllOK(lines, NOTHING) && |Encoded(lines)| + 2 <= MAX_EVENT
    requires DataOf(lines) != [] || NameOf(lines, "") != ""
    ensures var n := Next(Encoded(lines) + (Ending(crlf) + tail), endErr);
            && n.Event? && n.rest == tail && !n.ev.keepalive
            && n.ev.name == NameOf(lines, "") && (n.ev.hasData <==> DataOf(lines) != [])
            && (if n.ev.hasData then SplitLines(n.ev.data) == DataOf(lines) else n.ev.data == "")
  {
    LinesRead(Encoded(lines) + (Ending(crlf) + tail), lines, crlf, tail, endErr, NOTHING, MAX_EVENT);
    assert [] + DataOf(lines) == DataOf(lines);
    DataHasNoNewline(lines, NOTHING);
    if DataOf(lines) != [] { JoinSplits(DataOf(lines)); }
  }

  lemma {:induction false} DataHasNoNewline(lines: seq<Line>, p: Partial)
    requires AllOK(lines, p)
    ensures forall d :: d in DataOf(lines) ==> '\n' !in d
  {
    if lines != [] { DataHasNoNewline(lines[1..], Taking(p, lines[0].field)); }
  }
}
