/** What any upstream body comes to, line by line: ignored lines, data lines, blank lines and bare JSON lines. */
module SseLines {
  import opened Base
  import opened Sse
  import opened SseLaws

  /** What one line says. The space after "data:" may be left out. */
  datatype Body = Ignored(text: string) | Data(text: string, spaced: bool) | Bare(text: string) | Blank

  datatype Line = Line(body: Body, crlf: bool)

  function Sent(b: Body): string {
    match b
    case Ignored(text) => text
    case Data(text, spaced) => (if spaced then "data: " else "data:") + text
    case Bare(text) => text
    case Blank => ""
  }

  /** A bare line is one that begins like none of the others. */
  predicate WellFormed(b: Body) {
    && OneLine(Sent(b)) && (Sent(b) != "" ==> Sent(b)[|Sent(b)| - 1] != '\r')
    && match b
       case Ignored(text) => ":" <= text || "event:" <= text || "id:" <= text || "retry:" <= text
       case Data(text, spaced) => !spaced ==> !(" " <= text)
       case Bare(text) =>
         && text != "" && !(":" <= text) && !("data:" <= text) && !("event:" <= text) && !("id:" <= text) && !("retry:" <= text)
       case Blank => true
  }

  /** Every line is one of the four. */
  lemma EveryLineIsOne(line: string) returns (b: Body)
    requires OneLine(line) && (line != "" ==> line[|line| - 1] != '\r')
    ensures WellFormed(b) && Sent(b) == line
  {
    if line == "" {
      b := Blank;
    } else if ":" <= line || "event:" <= line || "id:" <= line || "retry:" <= line {
      b := Ignored(line);
    } else if "data:" <= line {
      b := DataLineIsOne(line);
    } else {
      b := Bare(line);
    }
  }

  lemma DataLineIsOne(line: string) returns (b: Body)
    requires "data:" <= line && OneLine(line) && line[|line| - 1] != '\r'
    ensures WellFormed(b) && Sent(b) == line
  {
    if |line| > 5 && line[5] == ' ' {
      b := Data(line[6..], true);
      assert line == line[..6] + line[6..];
    } else {
      b := Data(line[5..], false);
      assert line == line[..5] + line[5..];
    }
  }

  // ---------------------------------------------------------------- the parse, read off the lines

  /** The payloads delivered and, once there is one, the end of the parse. */
  datatype Got = Got(delivered: seq<string>, end: Option<EndKind>)

  /** The lines of one event, joined by newlines. */
  function Joined(lines: seq<string>): string
    requires lines != []
  {
    if |lines| == 1 then lines[0] else Joined(lines[..|lines| - 1]) + "\n" + lines[|lines| - 1]
  }

  function Total(lines: seq<string>): nat {
    if lines == [] then 0 else Total(lines[..|lines| - 1]) + |lines[|lines| - 1]|
  }

  /** The pending event goes out, unless it is blank; [DONE] and a refusal end the parse. */
  function Handed(pending: seq<string>, delivered: seq<string>, react: React): Got {
    if pending == [] || TrimSpace(Joined(pending)) == "" then Got(delivered, None)
    else if TrimSpace(Joined(pending)) == "[DONE]" then Got(delivered, Some(EndDone))
    else
      var all := delivered + [Joined(pending)];
      Got(all, if react(all).Some? then Some(EndError(Rejected(react(all).value))) else None)
  }

  /** What the parser makes of these lines, with some of an event pending. */
  function Played(lines: seq<Line>, pending: seq<string>, delivered: seq<string>, react: React): Got
    decreases |lines|
  {
    if lines == [] then OrElse(Handed(pending, delivered, react), EndEof)
    else if |Sent(lines[0].body)| > 33_554_432 then OrElse(Handed(pending, delivered, react), EndError(LineTooLong))
    else
      match lines[0].body
      case Ignored(_) => Played(lines[1..], pending, delivered, react)
      case Data(text, _) =>
        if Total(pending) + |text| > 33_554_432 then Got(delivered, Some(EndError(EventTooLong)))
        else Played(lines[1..], pending + [text], delivered, react)
      case Blank =>
        var out := Handed(pending, delivered, react);
        if out.end.Some? then out else Played(lines[1..], [], out.delivered, react)
      case Bare(text) =>
        var out := Handed(pending, delivered, react);
        if out.end.Some? then out
        else
          var own := Handed([TrimSpace(text)], out.delivered, react);
          if own.end.Some? then own else Played(lines[1..], [], own.delivered, react)
  }

  function OrElse(got: Got, kind: EndKind): Got {
    if got.end.Some? then got else got.(end := Some(kind))
  }

  // ---------------------------------------------------------------- that is what the parser does

  lemma {:induction false} JoinedIsJoinLines(lines: seq<string>)
    requires lines != []
    ensures Joined(lines) == JoinLines(lines)
  {
    if |lines| > 1 {
      var m := |lines| - 1;
      JoinedIsJoinLines(lines[..m]);
      JoinLast(lines[..m], lines[m]);
      assert lines == lines[..m] + [lines[m]];
    }
  }

  lemma {:induction false} JoinLast(lines: seq<string>, last: string)
    requires lines != []
    ensures JoinLines(lines + [last]) == JoinLines(lines) + "\n" + last
  {
    assert (lines + [last])[1..] == lines[1..] + [last];
    if |lines| > 1 {
      JoinLast(lines[1..], last);
    } else {
      assert JoinLines([last]) == last;
    }
  }

  function Waiting(pending: seq<string>, delivered: seq<string>): Parser {
    Parser(pending, Total(pending), delivered, None)
  }

  lemma HandedIsDispatch(pending: seq<string>, delivered: seq<string>, react: React)
    ensures var got := Handed(pending, delivered, react);
            Dispatch(Waiting(pending, delivered), react) == Parser([], 0, got.delivered, got.end)
  {
    if pending != [] {
      JoinedIsJoinLines(pending);
    }
  }

  lemma TotalNext(pending: seq<string>, text: string)
    ensures Total(pending + [text]) == Total(pending) + |text|
  {
  }

  lemma IgnoredSteps(p: Parser, text: string, react: React)
    requires WellFormed(Ignored(text)) && |text| <= 33_554_432
    ensures Step(p, text, react) == p
  {
  }

  lemma DataStep(pending: seq<string>, delivered: seq<string>, text: string, spaced: bool, react: React)
    requires WellFormed(Data(text, spaced)) && |Sent(Data(text, spaced))| <= 33_554_432
    ensures Step(Waiting(pending, delivered), Sent(Data(text, spaced)), react) ==
            if Total(pending) + |text| > 33_554_432
            then Parser(pending, Total(pending) + |text|, delivered, Some(EndError(EventTooLong)))
            else Waiting(pending + [text], delivered)
  {
    var line := Sent(Data(text, spaced));
    assert line[..5] == "data:";
    assert spaced ==> line[5] == ' ' && line[6..] == text;
    assert !spaced ==> line[5..] == text;
    assert DataValue(line) == text;
    TotalNext(pending, text);
  }

  lemma BareStep(pending: seq<string>, delivered: seq<string>, text: string, react: React)
    requires WellFormed(Bare(text)) && |text| <= 33_554_432
    ensures var out := Handed(pending, delivered, react);
            var own := Handed([TrimSpace(text)], out.delivered, react);
            var got := if out.end.Some? then out else own;
            Step(Waiting(pending, delivered), text, react) == Parser([], 0, got.delivered, got.end)
  {
    var p, own := Waiting(pending, delivered), TrimSpace(text);
    HandedIsDispatch(pending, delivered, react);
    var out := Handed(pending, delivered, react);
    HandedIsDispatch([own], out.delivered, react);
    assert [] + [own] == [own];
    BareUnfolds(p, text, react);
    DispatchIgnoresSize(Parser([own], 0, out.delivered, None), Waiting([own], out.delivered), react);
  }

  lemma BareUnfolds(p: Parser, text: string, react: React)
    requires p.end.None? && |text| <= 33_554_432 && text != "" && text[|text| - 1] != '\r'
    requires text[0] != ':' && !("data:" <= text) && !("event:" <= text) && !("id:" <= text) && !("retry:" <= text)
    ensures Step(p, text, react) ==
            var q := Dispatch(p, react);
            if q.end.Some? then q else Dispatch(q.(dataLines := q.dataLines + [TrimSpace(text)]), react)
  {
  }

  lemma DispatchIgnoresSize(p: Parser, q: Parser, react: React)
    requires p.dataLines == q.dataLines != [] && p.delivered == q.delivered
    ensures Dispatch(p, react) == Dispatch(q, react)
  {
  }

  lemma OthersStep(pending: seq<string>, delivered: seq<string>, react: React)
    ensures var got := Handed(pending, delivered, react);
            Step(Waiting(pending, delivered), "", react) == Parser([], 0, got.delivered, got.end)
  {
    HandedIsDispatch(pending, delivered, react);
  }

  lemma LongStep(pending: seq<string>, delivered: seq<string>, raw: string, react: React)
    requires |raw| > 33_554_432
    ensures var got := OrElse(Handed(pending, delivered, react), EndError(LineTooLong));
            Step(Waiting(pending, delivered), raw, react) == Parser([], 0, got.delivered, got.end)
  {
    HandedIsDispatch(pending, delivered, react);
  }

  function Sends(lines: seq<Line>): seq<string> {
    seq(|lines|, i requires 0 <= i < |lines| => Sent(lines[i].body))
  }

  predicate AllWellFormed(lines: seq<Line>) {
    forall i :: 0 <= i < |lines| ==> WellFormed(lines[i].body)
  }

  predicate Reads(p: Parser, got: Got) {
    p.delivered == got.delivered && p.end == got.end
  }

  lemma {:induction false} PlayedRuns(lines: seq<Line>, pending: seq<string>, delivered: seq<string>, react: React)
    requires AllWellFormed(lines)
    ensures Reads(Close(Run(Waiting(pending, delivered), Sends(lines), react), react), Played(lines, pending, delivered, react))
    decreases |lines|
  {
    var p := Waiting(pending, delivered);
    if lines == [] {
      HandedIsDispatch(pending, delivered, react);
    } else {
      var raw, rest := Sent(lines[0].body), lines[1..];
      var q := Step(p, raw, react);
      RunNext(p, lines, react);
      HeadStep(lines, pending, delivered, react);
      if q.end.Some? {
        RunStops(q, Sends(rest), react);
      } else {
        PlayedRuns(rest, q.dataLines, q.delivered, react);
      }
    }
  }

  lemma RunNext(p: Parser, lines: seq<Line>, react: React)
    requires lines != []
    ensures Run(p, Sends(lines), react) == Run(Step(p, Sent(lines[0].body), react), Sends(lines[1..]), react)
  {
    assert Sends(lines)[1..] == Sends(lines[1..]);
  }

  /** One line moves the parser and the reading alike. */
  lemma HeadStep(lines: seq<Line>, pending: seq<string>, delivered: seq<string>, react: React)
    requires lines != [] && WellFormed(lines[0].body)
    ensures var q := Step(Waiting(pending, delivered), Sent(lines[0].body), react);
            if q.end.Some? then Reads(q, Played(lines, pending, delivered, react))
            else q == Waiting(q.dataLines, q.delivered) && Played(lines, pending, delivered, react) == Played(lines[1..], q.dataLines, q.delivered, react)
  {
    var raw := Sent(lines[0].body);
    if |raw| > 33_554_432 {
      LongStep(pending, delivered, raw, react);
    } else {
      match lines[0].body
      case Ignored(text) => IgnoredSteps(Waiting(pending, delivered), text, react);
      case Data(text, spaced) => DataStep(pending, delivered, text, spaced, react);
      case Blank => OthersStep(pending, delivered, react);
      case Bare(text) => BareStep(pending, delivered, text, react);
    }
  }

  function Raw(line: Line): string {
    Sent(line.body) + if line.crlf then "\r" else ""
  }

  function Raws(lines: seq<Line>): seq<string> {
    seq(|lines|, i requires 0 <= i < |lines| => Raw(lines[i]))
  }

  function Bytes(lines: seq<Line>): string {
    Text(Raws(lines))
  }

  /** Whatever lines a body is made of, its parse is what they say: data lines gather, a blank line hands their event
      over, a bare line hands it over and then itself, and the rest is ignored. */
  lemma BodyIsPlayed(lines: seq<Line>, react: React)
    requires AllWellFormed(lines)
    ensures Reads(Parse(Bytes(lines), react), Played(lines, [], [], react))
  {
    RawsAreLines(lines);
    LinesOfText(Raws(lines), "");
    assert Text(Raws(lines)) + "" == Text(Raws(lines)) && Sends(lines) + Lines("") == Sends(lines);
    PlayedRuns(lines, [], [], react);
  }

  lemma RawsAreLines(lines: seq<Line>)
    requires AllWellFormed(lines)
    ensures forall i :: 0 <= i < |lines| ==> OneLine(Raws(lines)[i])
    ensures DropCrs(Raws(lines)) == Sends(lines)
  {
    forall i | 0 <= i < |lines| ensures OneLine(Raws(lines)[i]) && DropCr(Raws(lines)[i]) == Sent(lines[i].body) {
      var sent := Sent(lines[i].body);
      assert sent + "" == sent && (sent + "\r")[..|sent|] == sent;
    }
  }

  /** The newline after the last line makes no difference. */
  lemma LastNewlineIsOptional(lines: seq<string>, line: string, react: React)
    requires (forall i :: 0 <= i < |lines| ==> OneLine(lines[i])) && OneLine(line) && (line != "" ==> line[|line| - 1] != '\r')
    ensures var p, q := Parse(Text(lines) + line, react), Parse(Text(lines) + (line + "\n"), react);
            p.delivered == q.delivered && p.end == q.end
  {
    LinesOfText(lines, line);
    LinesOfText(lines, line + "\n");
    LinesCons(line, "");
    LineEndPrefix(line, 0);
    assert line + "\n" + "" == line + "\n" && [line] + Lines("") == [line];
    OneLineAlone(line);
    var p := Run(START, DropCrs(lines), react);
    RunAppend(START, DropCrs(lines), Lines(line), react);
    RunAppend(START, DropCrs(lines), [line], react);
    RunOne(p, "", react);
    assert line == "" ==> Run(p, [], react) == p;
  }

  lemma {:induction false} OneLineAlone(line: string)
    requires OneLine(line)
    ensures Lines(line) == if line == "" then [] else [line]
  {
    LineEndAppend(line, "");
  }
}
