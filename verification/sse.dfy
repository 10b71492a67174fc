/** cc.go: the Server-Sent Events parser (section 9.2.6 of the WHATWG HTML Living Standard, with the
    gateway's two deviations: bare JSON lines, and a pending event dispatched at end of input). */
module Sse {
  import opened Base

  const MAX_SSE_LINE_BYTES: nat := 32 * 1024 * 1024

  // ---------------------------------------------------------------- bytes to lines

  /** Index of the first newline at or after the start, or the length. */
  function LineEnd(s: string): (j: nat)
    ensures j <= |s|
    ensures forall i :: 0 <= i < j ==> s[i] != '\n'
    ensures j < |s| ==> s[j] == '\n'
  {
    if s == "" || s[0] == '\n' then 0 else 1 + LineEnd(s[1..])
  }

  /** The lines of a byte stream: newline-terminated ones lose "\n" or "\r\n", an unterminated last one stays. */
  function Lines(s: string): seq<string>
    decreases |s|
  {
    if s == "" then []
    else
      var j := LineEnd(s);
      if j == |s| then [s] else [DropCr(s[..j])] + Lines(s[j + 1..])
  }

  datatype IoError = Eof | ReadFault(message: string)

  /** A buffered reader over the rest of a byte stream. The schedule says where its buffer fills up inside a line. */
  class LineReader {
    const last: IoError
    var rest: string
    var schedule: seq<nat>

    constructor (bytes: string, last: IoError, schedule: seq<nat>)
      ensures rest == bytes && this.last == last
    {
      this.last, rest, this.schedule := last, bytes, schedule;
    }

    /** bufio.Reader.ReadLine: a whole line, or a prefix when the buffer is full. A carriage return that
        ends a full buffer is put back. */
    method ReadLine() returns (chunk: string, isPrefix: bool, err: Option<IoError>)
      modifies this
      ensures err.Some? <==> old(rest) == ""
      ensures err.Some? ==> chunk == "" && !isPrefix && err.value == last && rest == ""
      ensures err.None? && isPrefix ==> 0 < |chunk| && IsCut(old(rest), |chunk|) && chunk == old(rest)[..|chunk|] && rest == old(rest)[|chunk|..]
      ensures err.None? && !isPrefix ==> (chunk, rest) == NextLine(old(rest))
    {
      if rest == "" {
        return "", false, Some(last);
      }
      var j := LineEnd(rest);
      if schedule != [] {
        var c := schedule[0];
        schedule := schedule[1..];
        if 1 < c <= j && rest[c - 1] == '\r' {
          c := c - 1;
        }
        if IsCut(rest, c) && c > 0 {
          chunk, isPrefix, err := rest[..c], true, None;
          rest := rest[c..];
          return;
        }
      }
      isPrefix, err := false, None;
      chunk, rest := NextLine(rest).0, NextLine(rest).1;
    }

    /** readSSELine: the next line whole, however it was cut. */
    method ReadSseLine() returns (line: string, err: Option<IoError>, tooLong: bool)
      modifies this
      ensures tooLong ==> old(rest) != "" && |NextLine(old(rest)).0| > MAX_SSE_LINE_BYTES
      ensures !tooLong ==> |line| <= MAX_SSE_LINE_BYTES
      ensures !tooLong && err.None? ==> old(rest) != "" && (line, rest) == NextLine(old(rest))
      ensures !tooLong && err.Some? ==>
        err.value == last && rest == "" && Lines(old(rest)) == if line == "" then [] else [line]
    {
      line := "";
      ghost var start := rest;
      while true
        invariant Partial(start, line, rest) && |line| <= MAX_SSE_LINE_BYTES
        decreases |rest|
      {
        ghost var before := rest;
        if rest != "" {
          WholeLine(start, line, rest);
        }
        var chunk, isPrefix;
        chunk, isPrefix, err := ReadLine();
        if err.None? && isPrefix {
          PrefixKeeps(start, line, before, |chunk|);
        }
        if |line| + |chunk| > MAX_SSE_LINE_BYTES {
          return "", err, true;
        }
        line := line + chunk;
        if err.Some? {
          EndedLine(start, line);
          return line, err, false;
        }
        if !isPrefix {
          return line, None, false;
        }
      }
    }
  }

  /** The next whole line and what follows it. */
  function NextLine(s: string): (r: (string, string))
    requires s != ""
    ensures |r.1| < |s|
  {
    var j := LineEnd(s);
    if j == |s| then (s, "") else (DropCr(s[..j]), s[j + 1..])
  }

  lemma LinesNext(s: string)
    requires s != ""
    ensures Lines(s) == [NextLine(s).0] + Lines(NextLine(s).1)
  {
  }

  /** A cut after n bytes that stays inside the first line and never splits "\r\n". */
  predicate IsCut(s: string, n: nat) {
    n <= LineEnd(s) && !(0 < n < |s| && s[n - 1] == '\r' && s[n] == '\n')
  }

  ghost predicate Partial(start: string, line: string, rest: string) {
    start == line + rest && IsCut(start, |line|)
  }

  lemma EndOfWhole(start: string, line: string, rest: string)
    requires Partial(start, line, rest)
    ensures LineEnd(start) == |line| + LineEnd(rest)
  {
    LineEndPrefix(start, |line|);
    assert start[..|line|] == line;
    LineEndAppend(line, rest);
  }

  lemma PrefixKeeps(start: string, line: string, rest: string, n: nat)
    requires Partial(start, line, rest) && 0 < n && IsCut(rest, n)
    ensures Partial(start, line + rest[..n], rest[n..])
    ensures start != "" && |NextLine(start).0| >= |line| + n
  {
    EndOfWhole(start, line, rest);
    assert start == (line + rest[..n]) + rest[n..];
    CutStays(start, line, rest, n);
    FirstLineReaches(start, |line| + n);
  }

  lemma CutStays(start: string, line: string, rest: string, n: nat)
    requires start == line + rest && 0 < n && IsCut(rest, n) && LineEnd(start) == |line| + LineEnd(rest)
    ensures IsCut(start, |line| + n)
  {
  }

  lemma FirstLineReaches(s: string, n: nat)
    requires 0 < n && IsCut(s, n)
    ensures s != "" && |NextLine(s).0| >= n
  {
  }

  lemma WholeLine(start: string, line: string, rest: string)
    requires Partial(start, line, rest) && rest != ""
    ensures NextLine(start) == (line + NextLine(rest).0, NextLine(rest).1)
  {
    EndOfWhole(start, line, rest);
    if LineEnd(rest) < |rest| {
      if LineEnd(rest) == 0 {
        NoSplitCr(start, line, rest);
      }
      EndedWhole(start, line, rest);
    }
  }

  lemma EndedWhole(start: string, line: string, rest: string)
    requires start == line + rest && LineEnd(start) == |line| + LineEnd(rest) && LineEnd(rest) < |rest|
    requires LineEnd(rest) == 0 && line != "" ==> line[|line| - 1] != '\r'
    ensures NextLine(start) == (line + NextLine(rest).0, NextLine(rest).1)
  {
    var j := LineEnd(rest);
    Halves(start, line, rest, j);
    NextAt(rest, j);
    NextAt(start, |line| + j);
    DropCrAppend(line, rest[..j], line + rest[..j]);
  }

  lemma NextAt(s: string, j: nat)
    requires j < |s| && LineEnd(s) == j
    ensures NextLine(s) == (DropCr(s[..j]), s[j + 1..])
  {
  }

  lemma NoSplitCr(start: string, line: string, rest: string)
    requires Partial(start, line, rest) && rest != "" && rest[0] == '\n'
    ensures line != "" ==> line[|line| - 1] != '\r'
  {
  }

  lemma Halves(start: string, line: string, rest: string, i: nat)
    requires start == line + rest && i < |rest|
    ensures start[..|line| + i] == line + rest[..i] && start[|line| + i + 1..] == rest[i + 1..]
  {
  }

  lemma DropCrAppend(a: string, b: string, ab: string)
    requires ab == a + b && (b == "" && a != "" ==> a[|a| - 1] != '\r')
    ensures DropCr(ab) == a + DropCr(b)
  {
  }

  lemma EndedLine(start: string, line: string)
    requires Partial(start, line, "")
    ensures Lines(start) == if line == "" then [] else [line]
  {
    assert start == line;
  }

  lemma {:induction false} LineEndAppend(a: string, b: string)
    requires LineEnd(a) == |a|
    ensures LineEnd(a + b) == |a| + LineEnd(b)
  {
    if a == "" {
      assert a + b == b;
    } else {
      LineEndAppend(a[1..], b);
      assert (a + b)[1..] == a[1..] + b;
    }
  }

  lemma LineEndPrefix(s: string, n: nat)
    requires n <= LineEnd(s)
    ensures LineEnd(s[..n]) == n
  {
  }

  // ---------------------------------------------------------------- lines to payloads

  datatype EndKind = EndEof | EndDone | EndError(error: ParseError)

  datatype ParseError = LineTooLong | EventTooLong | Rejected(message: string) | ReadError(message: string)

  /** What decoding and handling the last payload of a delivery answers: an error, or None. */
  type React = seq<string> -> Option<string>

  datatype Parser = Parser(dataLines: seq<string>, dataBytes: int, delivered: seq<string>, end: Option<EndKind>)

  const START := Parser([], 0, [], None)

  function Deliver(delivered: seq<string>, payload: string, react: React): (seq<string>, Option<EndKind>) {
    if TrimSpace(payload) == "" then (delivered, None)
    else if TrimSpace(payload) == "[DONE]" then (delivered, Some(EndDone))
    else
      match react(delivered + [payload])
      case None => (delivered + [payload], None)
      case Some(e) => (delivered + [payload], Some(EndError(Rejected(e))))
  }

  function Dispatch(p: Parser, react: React): Parser {
    if p.dataLines == [] then p
    else
      var (delivered, end) := Deliver(p.delivered, JoinLines(p.dataLines), react);
      Parser([], 0, delivered, end)
  }

  function DataValue(line: string): string
    requires "data:" <= line
  {
    if |line| > 5 && line[5] == ' ' then line[6..] else line[5..]
  }

  predicate IsFieldLine(line: string) {
    "event:" <= line || "id:" <= line || "retry:" <= line
  }

  /** An over-long line is read as an empty one that comes with an error: the pending event still goes out first. */
  function Step(p: Parser, raw: string, react: React): Parser {
    if p.end.Some? then p
    else if |raw| > MAX_SSE_LINE_BYTES then EndWith(Dispatch(p, react), EndError(LineTooLong))
    else
      var line := DropCr(raw);
      if line == "" then Dispatch(p, react)
      else if line[0] == ':' then p
      else if "data:" <= line then
        var n := p.dataBytes + |DataValue(line)|;
        if n > MAX_SSE_LINE_BYTES then p.(dataBytes := n, end := Some(EndError(EventTooLong)))
        else p.(dataLines := p.dataLines + [DataValue(line)], dataBytes := n)
      else if IsFieldLine(line) then p
      else
        var q := Dispatch(p, react);
        if q.end.Some? then q else Dispatch(q.(dataLines := q.dataLines + [TrimSpace(line)]), react)
  }

  function Run(p: Parser, lines: seq<string>, react: React): Parser
    decreases |lines|
  {
    if lines == [] then p else Run(Step(p, lines[0], react), lines[1..], react)
  }

  function Flush(p: Parser, react: React): Parser {
    if p.end.Some? then p else Dispatch(p, react)
  }

  function EndWith(p: Parser, kind: EndKind): Parser {
    if p.end.Some? then p else p.(end := Some(kind))
  }

  /** End of input: the pending event goes out first. */
  function Close(p: Parser, react: React): Parser {
    EndWith(Flush(p, react), EndEof)
  }

  function Parse(bytes: string, react: React): Parser {
    Close(Run(START, Lines(bytes), react), react)
  }

  /** When the transport fails instead of ending, a pending event goes out or is lost, depending on the cuts. */
  ghost predicate ParsesFailing(bytes: string, message: string, react: React, p: Parser) {
    var q := Run(START, Lines(bytes), react);
    p == EndWith(q, EndError(ReadError(message))) || p == EndWith(Flush(q, react), EndError(ReadError(message)))
  }

  lemma RunStops(p: Parser, lines: seq<string>, react: React)
    requires p.end.Some?
    ensures Run(p, lines, react) == p
  {
  }

  /** The dispatch closure: delivers the pending payload and empties the buffer. */
  method DispatchPending(p: Parser, react: React) returns (q: Parser)
    ensures q == Dispatch(p, react)
  {
    if |p.dataLines| == 0 {
      return p;
    }
    var payload := JoinLines(p.dataLines);
    q := Parser([], 0, p.delivered, p.end);
    if TrimSpace(payload) == "" {
      return q.(end := None);
    }
    if TrimSpace(payload) == "[DONE]" {
      return q.(end := Some(EndDone));
    }
    var answer := react(p.delivered + [payload]);
    q := q.(delivered := p.delivered + [payload],
            end := if answer.Some? then Some(EndError(Rejected(answer.value))) else None);
  }

  /** The switch over one line. */
  method HandleLine(p0: Parser, raw: string, react: React) returns (p: Parser)
    requires p0.end.None? && |raw| <= MAX_SSE_LINE_BYTES
    ensures p == Step(p0, raw, react)
  {
    p := p0;
    var line := DropCr(raw);
    if line == "" {
      p := DispatchPending(p, react);
    } else if line[0] == ':' {
      return;
    } else if "data:" <= line {
      var n := p.dataBytes + |DataValue(line)|;
      p := p.(dataBytes := n);
      if n > MAX_SSE_LINE_BYTES {
        p := p.(end := Some(EndError(EventTooLong)));
        return;
      }
      p := p.(dataLines := p.dataLines + [DataValue(line)]);
    } else if IsFieldLine(line) {
      return;
    } else {
      if |p.dataLines| > 0 {
        p := DispatchPending(p, react);
      }
      if p.end.None? {
        p := p.(dataLines := p.dataLines + [TrimSpace(line)]);
        p := DispatchPending(p, react);
      }
    }
  }

  lemma CloseAfter(p: Parser, line: string, react: React)
    requires p.end.None? && |line| <= MAX_SSE_LINE_BYTES
    ensures var q := Run(p, if line == "" then [] else [line], react);
            && Flush(Step(p, line, react), react) == Flush(q, react)
            && Step(p, line, react) == if line == "" then Flush(q, react) else q
  {
  }

  lemma RunOne(p: Parser, line: string, react: React)
    ensures Run(p, [line], react) == Step(p, line, react)
  {
  }

  /** parseStreamEvents: however the reads are cut, it parses the bytes. */
  method ParseStreamEvents(reader: LineReader, react: React) returns (p: Parser)
    modifies reader
    ensures reader.last == Eof ==> p == Parse(old(reader.rest), react)
    ensures reader.last.ReadFault? ==> ParsesFailing(old(reader.rest), reader.last.message, react, p)
  {
    p := START;
    ghost var q := Run(START, Lines(reader.rest), react);
    while p.end.None?
      invariant p.end.None? ==> q == Run(p, Lines(reader.rest), react)
      invariant p.end.Some? ==> Finished(reader.last, q, react, p)
      decreases p.end.None?, |reader.rest|
    {
      ghost var before, p0 := Lines(reader.rest), p;
      if reader.rest != "" {
        LinesNext(reader.rest);
      }
      var raw, err, tooLong := reader.ReadSseLine();
      if tooLong {
        RunStops(Step(p, before[0], react), before[1..], react);
        p := DispatchPending(p, react);
        if p.end.None? {
          p := p.(end := Some(EndError(LineTooLong)));
        }
        return;
      }
      p := HandleLine(p, raw, react);
      if err.None? {
        assert before[1..] == Lines(reader.rest);
        if p.end.Some? {
          RunStops(p, Lines(reader.rest), react);
        }
      } else {
        CloseAfter(p0, raw, react);
        if p.end.None? {
          if err.value.ReadFault? {
            p := p.(end := Some(EndError(ReadError(err.value.message))));
            return;
          }
          p := DispatchPending(p, react);
          if p.end.None? {
            p := p.(end := Some(EndEof));
          }
        }
      }
    }
  }

  ghost predicate Finished(last: IoError, q: Parser, react: React, p: Parser) {
    match last
    case Eof => p == Close(q, react)
    case ReadFault(m) =>
      p == EndWith(q, EndError(ReadError(m))) || p == EndWith(Flush(q, react), EndError(ReadError(m)))
  }
}
