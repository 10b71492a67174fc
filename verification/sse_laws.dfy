/** Writing payloads as SSE frames and parsing them back. */
module SseLaws {
  import opened Base
  import opened Sse
  import Events
  import Handler
  import StreamLaws

  /** A data line with the ignorable lines before it. */
  datatype Part = Part(before: seq<string>, text: string)

  /** One event as it may arrive: data lines among ignorable ones, then the blank line. */
  datatype Framed = Framed(parts: seq<Part>, after: seq<string>, crlf: bool)

  predicate OneLine(s: string) {
    forall i :: 0 <= i < |s| ==> s[i] != '\n'
  }

  /** Comment, event, id and retry lines. */
  predicate Noise(line: string) {
    && OneLine(line) && |line| <= 33_554_432
    && (":" <= line || "event:" <= line || "id:" <= line || "retry:" <= line)
  }

  predicate AllNoise(lines: seq<string>) {
    forall i :: 0 <= i < |lines| ==> Noise(lines[i])
  }

  predicate Sendable(text: string) {
    OneLine(text) && (text != "" ==> text[|text| - 1] != '\r') && |text| + 6 <= 33_554_432
  }

  function Texts(parts: seq<Part>): seq<string> {
    if parts == [] then [] else [parts[0].text] + Texts(parts[1..])
  }

  function Size(parts: seq<Part>): nat {
    if parts == [] then 0 else |parts[0].text| + Size(parts[1..])
  }

  predicate AllSendable(parts: seq<Part>) {
    forall i :: 0 <= i < |parts| ==> AllNoise(parts[i].before) && Sendable(parts[i].text)
  }

  predicate WellFramed(f: Framed) {
    AllSendable(f.parts) && AllNoise(f.after) && Size(f.parts) <= 33_554_432
  }

  function Payload(f: Framed): string {
    JoinLines(Texts(f.parts))
  }

  function PartLines(parts: seq<Part>, cr: string): seq<string> {
    if parts == [] then [] else parts[0].before + ["data: " + parts[0].text + cr] + PartLines(parts[1..], cr)
  }

  function FrameLines(f: Framed): seq<string> {
    var cr := if f.crlf then "\r" else "";
    PartLines(f.parts, cr) + f.after + [cr]
  }

  /** Each line followed by a newline. */
  function Text(lines: seq<string>): string {
    if lines == [] then "" else lines[0] + "\n" + Text(lines[1..])
  }

  function WireLines(frames: seq<Framed>): seq<string> {
    if frames == [] then [] else FrameLines(frames[0]) + WireLines(frames[1..])
  }

  function Wire(frames: seq<Framed>): string {
    Text(WireLines(frames))
  }

  /** The payloads a parser hands over: the non-blank ones in order, up to the terminator or the first refusal. */
  function Replay(frames: seq<Framed>, delivered: seq<string>, react: React): (seq<string>, EndKind) {
    if frames == [] then (delivered, EndEof)
    else
      var payload := Payload(frames[0]);
      if TrimSpace(payload) == "" then Replay(frames[1..], delivered, react)
      else if TrimSpace(payload) == "[DONE]" then (delivered, EndDone)
      else
        match react(delivered + [payload])
        case Some(e) => (delivered + [payload], EndError(Rejected(e)))
        case None => Replay(frames[1..], delivered + [payload], react)
  }

  function DropCrs(lines: seq<string>): seq<string> {
    seq(|lines|, i requires 0 <= i < |lines| => DropCr(lines[i]))
  }

  lemma {:induction false} LineEndAt(a: string, b: string)
    requires OneLine(a)
    ensures LineEnd(a + "\n" + b) == |a|
  {
    if a == "" {
      assert (a + "\n" + b)[0] == '\n';
    } else {
      LineEndAt(a[1..], b);
      assert (a + "\n" + b)[1..] == a[1..] + "\n" + b;
    }
  }

  lemma LinesCons(line: string, rest: string)
    requires OneLine(line)
    ensures Lines(line + "\n" + rest) == [DropCr(line)] + Lines(rest)
  {
    var s := line + "\n" + rest;
    LineEndAt(line, rest);
    assert s[..|line|] == line && s[|line| + 1..] == rest;
  }

  lemma DropCrsCons(lines: seq<string>, tail: seq<string>)
    requires lines != []
    ensures DropCrs(lines) + tail == [DropCr(lines[0])] + (DropCrs(lines[1..]) + tail)
  {
  }

  lemma {:induction false} LinesOfText(lines: seq<string>, tail: string)
    requires forall i :: 0 <= i < |lines| ==> OneLine(lines[i])
    ensures Lines(Text(lines) + tail) == DropCrs(lines) + Lines(tail)
  {
    if lines == [] {
      assert Text(lines) + tail == tail;
    } else {
      LinesOfText(lines[1..], tail);
      LinesCons(lines[0], Text(lines[1..]) + tail);
      Assoc(lines[0] + "\n", Text(lines[1..]), tail);
      DropCrsCons(lines, Lines(tail));
    }
  }

  lemma {:induction false} RunAppend(p: Parser, a: seq<string>, b: seq<string>, react: React)
    ensures Run(p, a + b, react) == Run(Run(p, a, react), b, react)
    decreases |a|
  {
    if a == [] {
      assert a + b == b;
    } else {
      assert (a + b)[1..] == a[1..] + b;
      RunAppend(Step(p, a[0], react), a[1..], b, react);
    }
  }

  lemma {:induction false} NoiseRuns(p: Parser, lines: seq<string>, react: React)
    requires AllNoise(lines)
    ensures Run(p, DropCrs(lines), react) == p
    decreases |lines|
  {
    if lines != [] {
      assert Noise(lines[0]);
      NoiseSteps(p, lines[0], react);
      assert DropCrs(lines)[1..] == DropCrs(lines[1..]);
      NoiseRuns(p, lines[1..], react);
    }
  }

  lemma NoiseSteps(p: Parser, line: string, react: React)
    requires Noise(line)
    ensures Step(p, DropCr(line), react) == p
  {
    FieldSurvives(line);
    FieldSurvives(DropCr(line));
  }

  lemma FieldSurvives(line: string)
    requires line != "" && (line[0] == ':' || IsFieldLine(line))
    ensures DropCr(line) != "" && DropCr(line)[0] == line[0]
    ensures IsFieldLine(line) ==> IsFieldLine(DropCr(line)) && !("data:" <= line)
  {
  }

  lemma DataSteps(p: Parser, text: string, cr: string, react: React)
    requires p.end.None? && Sendable(text) && p.dataBytes + |text| <= MAX_SSE_LINE_BYTES && cr in {"", "\r"}
    ensures Step(p, DropCr("data: " + text + cr), react) ==
            p.(dataLines := p.dataLines + [text], dataBytes := p.dataBytes + |text|)
  {
    var line := "data: " + text;
    assert line[|line| - 1] == if text == "" then ' ' else text[|text| - 1];
    assert (line + "\r")[..|line|] == line && line + "" == line;
    assert line[..5] == "data:" && line[5] == ' ' && line[6..] == text;
  }

  lemma {:induction false} PartsRun(p: Parser, parts: seq<Part>, cr: string, react: React)
    requires p.end.None? && AllSendable(parts) && p.dataBytes + Size(parts) <= MAX_SSE_LINE_BYTES && cr in {"", "\r"}
    ensures Run(p, DropCrs(PartLines(parts, cr)), react) ==
            p.(dataLines := p.dataLines + Texts(parts), dataBytes := p.dataBytes + Size(parts))
    decreases |parts|
  {
    if parts == [] {
      assert p.dataLines + Texts(parts) == p.dataLines;
    } else {
      PartRuns(p, parts[0], cr, react);
      var first := parts[0].before + ["data: " + parts[0].text + cr];
      var q := Run(p, DropCrs(first), react);
      DropCrsAppend(first, PartLines(parts[1..], cr));
      RunAppend(p, DropCrs(first), DropCrs(PartLines(parts[1..], cr)), react);
      PartsRun(q, parts[1..], cr, react);
      Assoc(p.dataLines, [parts[0].text], Texts(parts[1..]));
    }
  }

  lemma PartRuns(p: Parser, part: Part, cr: string, react: React)
    requires p.end.None? && AllNoise(part.before) && Sendable(part.text)
    requires p.dataBytes + |part.text| <= MAX_SSE_LINE_BYTES && cr in {"", "\r"}
    ensures Run(p, DropCrs(part.before + ["data: " + part.text + cr]), react) ==
            p.(dataLines := p.dataLines + [part.text], dataBytes := p.dataBytes + |part.text|)
  {
    var line := "data: " + part.text + cr;
    DropCrsAppend(part.before, [line]);
    assert DropCrs([line]) == [DropCr(line)];
    RunAppend(p, DropCrs(part.before), [DropCr(line)], react);
    NoiseRuns(p, part.before, react);
    RunOne(p, DropCr(line), react);
    DataSteps(p, part.text, cr, react);
  }

  lemma FrameRuns(p: Parser, f: Framed, react: React)
    requires p == Parser([], 0, p.delivered, None) && WellFramed(f)
    ensures var (delivered, end) := Deliver(p.delivered, Payload(f), react);
            Run(p, DropCrs(FrameLines(f)), react) == Parser([], 0, delivered, end)
  {
    var cr := if f.crlf then "\r" else "";
    var q := Parser(Texts(f.parts), Size(f.parts), p.delivered, None);
    DropCrsAppend(PartLines(f.parts, cr) + f.after, [cr]);
    DropCrsAppend(PartLines(f.parts, cr), f.after);
    PartsRun(p, f.parts, cr, react);
    assert [] + Texts(f.parts) == Texts(f.parts);
    RunAppend(p, DropCrs(PartLines(f.parts, cr)), DropCrs(f.after), react);
    NoiseRuns(q, f.after, react);
    assert DropCrs([cr]) == [""];
    RunAppend(p, DropCrs(PartLines(f.parts, cr)) + DropCrs(f.after), [""], react);
    RunOne(q, "", react);
    NoDataNoSize(f.parts);
  }

  lemma NoDataNoSize(parts: seq<Part>)
    ensures Texts(parts) == [] <==> parts == []
  {
  }

  lemma DropCrsAppend(a: seq<string>, b: seq<string>)
    ensures DropCrs(a + b) == DropCrs(a) + DropCrs(b)
  {
  }

  lemma {:induction false} FramesRun(p: Parser, frames: seq<Framed>, react: React)
    requires p == Parser([], 0, p.delivered, None) && forall i :: 0 <= i < |frames| ==> WellFramed(frames[i])
    ensures var (delivered, end) := Replay(frames, p.delivered, react);
            Run(p, DropCrs(WireLines(frames)), react) == Parser([], 0, delivered, if end == EndEof then None else Some(end))
    decreases |frames|
  {
    if frames != [] {
      var first, rest := DropCrs(FrameLines(frames[0])), DropCrs(WireLines(frames[1..]));
      DropCrsAppend(FrameLines(frames[0]), WireLines(frames[1..]));
      RunAppend(p, first, rest, react);
      FrameRuns(p, frames[0], react);
      var (delivered, end) := Deliver(p.delivered, Payload(frames[0]), react);
      var q := Parser([], 0, delivered, end);
      if end.Some? {
        RunStops(q, rest, react);
      } else {
        FramesRun(q, frames[1..], react);
      }
      ReplayCons(frames, p.delivered, react);
    }
  }

  lemma ReplayCons(frames: seq<Framed>, delivered: seq<string>, react: React)
    requires frames != []
    ensures var (all, end) := Deliver(delivered, Payload(frames[0]), react);
            Replay(frames, delivered, react) == if end.Some? then (all, end.value) else Replay(frames[1..], all, react)
    ensures Deliver(delivered, Payload(frames[0]), react).1 != Some(EndEof)
  {
  }

  lemma {:induction false} WireIsLines(frames: seq<Framed>)
    requires forall i :: 0 <= i < |frames| ==> WellFramed(frames[i])
    ensures forall i :: 0 <= i < |WireLines(frames)| ==> OneLine(WireLines(frames)[i])
  {
    if frames != [] {
      WireIsLines(frames[1..]);
      FrameIsLines(frames[0]);
    }
  }

  lemma FrameIsLines(f: Framed)
    requires WellFramed(f)
    ensures forall i :: 0 <= i < |FrameLines(f)| ==> OneLine(FrameLines(f)[i])
  {
    var cr := if f.crlf then "\r" else "";
    PartsAreLines(f.parts, cr);
  }

  lemma {:induction false} PartsAreLines(parts: seq<Part>, cr: string)
    requires AllSendable(parts) && OneLine(cr)
    ensures forall i :: 0 <= i < |PartLines(parts, cr)| ==> OneLine(PartLines(parts, cr)[i])
  {
    if parts != [] {
      PartsAreLines(parts[1..], cr);
      assert OneLine("data: " + parts[0].text + cr);
    }
  }

  /** Every payload comes back exactly and in order, whatever is interleaved, up to the terminator or the
      first refusal; after that nothing is dispatched, whatever follows. */
  lemma RoundTrip(frames: seq<Framed>, trailing: seq<string>, tail: string, react: React)
    requires forall i :: 0 <= i < |frames| ==> WellFramed(frames[i])
    requires AllNoise(trailing)
    ensures var (delivered, end) := Replay(frames, [], react);
            && (end != EndEof ==> Parse(Wire(frames) + tail, react) == Parser([], 0, delivered, Some(end)))
            && (end == EndEof ==> Parse(Wire(frames) + Text(trailing), react) == Parser([], 0, delivered, Some(EndEof)))
  {
    WireIsLines(frames);
    FramesRun(START, frames, react);
    var lines := DropCrs(WireLines(frames));
    LinesOfText(WireLines(frames), tail);
    RunAppend(START, lines, Lines(tail), react);
    if Run(START, lines, react).end.Some? {
      RunStops(Run(START, lines, react), Lines(tail), react);
    }
    forall i | 0 <= i < |trailing| ensures OneLine(trailing[i]) {
      assert Noise(trailing[i]);
    }
    LinesOfText(WireLines(frames), Text(trailing));
    LinesOfText(trailing, "");
    assert Text(trailing) + "" == Text(trailing) && DropCrs(trailing) + Lines("") == DropCrs(trailing);
    RunAppend(START, lines, DropCrs(trailing), react);
    NoiseRuns(Run(START, lines, react), trailing, react);
  }

  /** Before an over-long line the pending event is delivered, and a pending [DONE] ends the parse as done. */
  lemma OverlongLineFlushes(parts: seq<Part>, crlf: bool, line: string, rest: string, react: React)
    requires AllSendable(parts) && parts != [] && Size(parts) <= 33_554_432
    requires OneLine(line) && |DropCr(line)| > 33_554_432
    ensures var cr := if crlf then "\r" else "";
            var (delivered, end) := Deliver([], JoinLines(Texts(parts)), react);
            Parse(Text(PartLines(parts, cr)) + (line + "\n" + rest), react) ==
            Parser([], 0, delivered, Some(if end.Some? then end.value else EndError(LineTooLong)))
  {
    var cr := if crlf then "\r" else "";
    var lines := PartLines(parts, cr);
    PartsAreLines(parts, cr);
    LinesOfText(lines, line + "\n" + rest);
    LinesCons(line, rest);
    PartsRun(START, parts, cr, react);
    assert [] + Texts(parts) == Texts(parts);
    RunAppend(START, DropCrs(lines), [DropCr(line)] + Lines(rest), react);
    var q := Parser(Texts(parts), Size(parts), [], None);
    NoDataNoSize(parts);
    RunAppend(q, [DropCr(line)], Lines(rest), react);
    RunOne(q, DropCr(line), react);
    RunStops(Step(q, DropCr(line), react), Lines(rest), react);
  }

  // ---------------------------------------------------------------- the gateway's own stream, read back

  /** writeSSE and the terminator write: the JSON of each frame, or [DONE]. */
  function Written(json: Handler.Frame -> string, frames: seq<Handler.Frame>): seq<Framed> {
    seq(|frames|, i requires 0 <= i < |frames| =>
      OneFrame(if frames[i].DoneFrame? then "[DONE]" else json(frames[i])))
  }

  function Jsons(json: Handler.Frame -> string, frames: seq<Handler.Frame>): seq<string> {
    seq(|frames|, i requires 0 <= i < |frames| => json(frames[i]))
  }

  /** JSON texts are single non-blank lines; these also fit the size limit. */
  predicate MarshalsToOneLine(json: Handler.Frame -> string, frames: seq<Handler.Frame>) {
    forall i :: 0 <= i < |frames| && !frames[i].DoneFrame? ==>
      Sendable(json(frames[i])) && TrimSpace(json(frames[i])) != "" && TrimSpace(json(frames[i])) != "[DONE]"
  }

  predicate EndsWithDone(frames: seq<Handler.Frame>) {
    frames != [] && forall i :: 0 <= i < |frames| ==> (frames[i].DoneFrame? <==> i == |frames| - 1)
  }

  function OneFrame(text: string): Framed {
    Framed([Part([], text)], [], false)
  }

  lemma OneFrameCarries(text: string)
    requires Sendable(text)
    ensures WellFramed(OneFrame(text)) && Payload(OneFrame(text)) == text
  {
    var part := Part([], text);
    assert [part][1..] == [] && Texts([part]) == [text] && Size([part]) == |text|;
  }

  lemma {:induction false} ReplayWritten(json: Handler.Frame -> string, frames: seq<Handler.Frame>, before: seq<string>, react: React)
    requires EndsWithDone(frames) && MarshalsToOneLine(json, frames) && forall h :: react(h).None?
    ensures Replay(Written(json, frames), before, react) == (before + Jsons(json, frames[..|frames| - 1]), EndDone)
    decreases |frames|
  {
    if |frames| > 1 {
      OneFrameCarries(json(frames[0]));
      WrittenNext(json, frames);
      ReplayWritten(json, frames[1..], before + [json(frames[0])], react);
      Assoc(before, [json(frames[0])], Jsons(json, frames[1..][..|frames[1..]| - 1]));
    } else {
      OneFrameCarries("[DONE]");
      assert before + Jsons(json, frames[..0]) == before;
      assert TrimSpace("[DONE]") == "[DONE]";
    }
  }

  lemma WrittenNext(json: Handler.Frame -> string, frames: seq<Handler.Frame>)
    requires |frames| > 1
    ensures Written(json, frames)[1..] == Written(json, frames[1..])
    ensures Jsons(json, frames[..|frames| - 1]) == [json(frames[0])] + Jsons(json, frames[1..][..|frames[1..]| - 1])
  {
  }

  lemma WrittenParsesBack(json: Handler.Frame -> string, frames: seq<Handler.Frame>, tail: string, react: React)
    requires EndsWithDone(frames) && MarshalsToOneLine(json, frames) && forall h :: react(h).None?
    ensures Parse(Wire(Written(json, frames)) + tail, react) == Parser([], 0, Jsons(json, frames[..|frames| - 1]), Some(EndDone))
  {
    ReplayWritten(json, frames, [], react);
    forall i | 0 <= i < |frames| ensures WellFramed(Written(json, frames)[i]) {
      OneFrameCarries(if frames[i].DoneFrame? then "[DONE]" else json(frames[i]));
    }
    RoundTrip(Written(json, frames), [], tail, react);
    assert [] + Jsons(json, frames[..|frames| - 1]) == Jsons(json, frames[..|frames| - 1]);
  }

  /** Any streamed body parses back to exactly its frames, in order, and ends with [DONE]; what follows is unread. */
  lemma StreamParsesBack(codec: Events.Codec, events: seq<Events.Event>, end: Handler.End, includeUsage: bool,
                         json: Handler.Frame -> string, tail: string, react: React)
    requires MarshalsToOneLine(json, Handler.StreamFrames(codec, events, end, includeUsage)) && forall h :: react(h).None?
    ensures var frames := Handler.StreamFrames(codec, events, end, includeUsage);
            EndsWithDone(frames) &&
            Parse(Wire(Written(json, frames)) + tail, react) == Parser([], 0, Jsons(json, frames[..|frames| - 1]), Some(EndDone))
  {
    StreamLaws.EveryStreamCloses(codec, events, end, includeUsage);
    WrittenParsesBack(json, Handler.StreamFrames(codec, events, end, includeUsage), tail, react);
  }
}
