/** internal/providers/sse.go as it is written, over a buffered reader that may hand a line over
    in any pieces. What Next returns is proved to depend on the bytes alone. */
module SseScanner {
  import opened Common
  import opened SseSpec

  datatype SliceErr = NoErr | BufferFull | Ends(err: ReadErr)

  /** A body still to be read. ReadSlice returns up to the next newline, or what is left, or any
      part of a line that filled the buffer. */
  class Reader {
    var rest: string
    const endErr: ReadErr

    constructor (body: string, endErr: ReadErr)
      ensures rest == body && this.endErr == endErr
    {
      this.rest, this.endErr := body, endErr;
    }

    method ReadSlice() returns (chunk: string, err: SliceErr)
      modifies this
      ensures old(rest) == chunk + rest
      ensures match err
              case NoErr => chunk != "" && chunk[|chunk| - 1] == '\n' && '\n' !in chunk[..|chunk| - 1]
              case BufferFull => chunk != "" && '\n' !in chunk
              case Ends(e) => rest == "" && '\n' !in chunk && e == endErr
    {
      var n := 0;
      while n < |rest| && rest[n] != '\n'
        invariant n <= |rest| && '\n' !in rest[..n]
      {
        n := n + 1;
      }
      var full :| full <= n;
      if full > 0 {
        chunk, err := rest[..full], BufferFull;
      } else if n < |rest| {
        chunk, err := rest[..n + 1], NoErr;
      } else {
        chunk, err := rest, Ends(endErr);
      }
      rest := rest[|chunk|..];
    }
  }

  class SSEScanner {
    const br: Reader

    constructor (br: Reader)
      ensures this.br == br
    {
      this.br := br;
    }

    /** One line with its terminator, charged against the event's budget. */
    method ReadLine(remaining: nat) returns (line: string, err: Option<ReadErr>, left: nat)
      modifies br
      ensures var n := LineLen(old(br.rest));
              if n > remaining then line == "" && err == Some(TooLarge)
              else
                && line == old(br.rest)[..n] && br.rest == old(br.rest)[n..] && left == remaining - n
                && err == (if n > 0 && line[n - 1] == '\n' then None else Some(br.endErr))
    {
      line, left := "", remaining;
      while true
        invariant old(br.rest) == line + br.rest && '\n' !in line && left == remaining - |line|
        decreases |br.rest|
      {
        ghost var before := line;
        var chunk, e := br.ReadSlice();
        assert old(br.rest) == before + (chunk + br.rest);
        LineLenSplit(before, chunk + br.rest);
        PieceOfLine(chunk, br.rest, e);
        if left < |chunk| {
          return "", Some(TooLarge), left;
        }
        left := left - |chunk|;
        line := line + chunk;
        assert old(br.rest) == line + br.rest;
        if e == BufferFull {
          continue;
        }
        err := if e == NoErr then None else Some(e.err);
        return;
      }
    }

    /** One event, exactly as SseSpec.Next reads it from the bytes, however they arrive. */
    method Next() returns (r: Scan)
      modifies br
      ensures r == SseSpec.Next(old(br.rest), br.endErr)
      ensures r.Event? ==> br.rest == r.rest
    {
      var name, data, remaining := "", [], MAX_EVENT;
      while true
        invariant SseSpec.Next(old(br.rest), br.endErr) == NextFrom(br.rest, br.endErr, Partial(name, data), remaining)
        decreases |br.rest|
      {
        ghost var rest := br.rest;
        LineEndOrNothing(rest);
        var line, err, left := ReadLine(remaining);
        remaining := left;
        if line != "" {
          var trimmed := TrimRight(line);
          if trimmed == "" {
            if data != [] || name != "" {
              return Event(SSEEvent(name, Join(data), data != [], false), br.rest);
            }
            remaining := MAX_EVENT;
          } else if trimmed[0] == ':' {
            if data == [] && name == "" {
              return Event(KEEPALIVE, br.rest);
            }
          } else if HasPrefix(trimmed, "data:") {
            data := data + [FieldValue(trimmed, "data:")];
          } else if HasPrefix(trimmed, "event:") {
            name := FieldValue(trimmed, "event:");
          }
        }
        if err.Some? {
          return Stop(err.value);
        }
      }
    }
  }

  lemma PieceOfLine(chunk: string, rest: string, e: SliceErr)
    requires match e
             case NoErr => chunk != "" && chunk[|chunk| - 1] == '\n' && '\n' !in chunk[..|chunk| - 1]
             case BufferFull => '\n' !in chunk
             case Ends(_) => rest == "" && '\n' !in chunk
    ensures LineLen(chunk + rest) == |chunk| + if e == BufferFull then LineLen(rest) else 0
  {
    if e == NoErr {
      assert chunk + rest == chunk[..|chunk| - 1] + (['\n'] + rest);
      LineLenSplit(chunk[..|chunk| - 1], ['\n'] + rest);
    } else {
      LineLenSplit(chunk, rest);
    }
  }

  lemma LineEndOrNothing(s: string)
    ensures s != "" && s[LineLen(s) - 1] != '\n' ==> LineLen(s) == |s|
  {
    if s != "" { LineEnd(s); }
  }
}
