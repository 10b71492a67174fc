/** zen_responses.go: two folds of one upstream Responses stream, an aggregator and an incremental emitter. */
module ZenResponses {
  import opened Base

  // ---------------------------------------------------------------- the upstream dialect

  datatype Item = Item(typ: string, id: string, callId: string, name: string, arguments: string)

  datatype Tokens = Tokens(input: int, output: int, total: int)

  datatype Response = Response(status: string, incompleteReason: Option<string>, usage: Option<Tokens>)

  datatype Event = Event(typ: string, delta: string, text: string, response: Option<Response>, item: Option<Item>, error: Option<string>)

  /** The JSON decoder and Unicode lower-casing, left abstract. */
  datatype Lib = Lib(decode: string -> Option<Event>, lower: string -> string)

  datatype Kind = TextDelta | ItemDone | Completed | Failed | Ignored

  datatype Finish = Stop | Length | ContentFilter | ToolCalls

  datatype ToolCall = ToolCall(id: string, name: string, arguments: string)

  datatype Usage = Usage(prompt: int, completion: int, total: int)

  datatype Error = Unreadable | Incomplete(sawDone: bool) | UpstreamFailed(detail: Option<string>)

  const EVENT_WORDS: seq<(string, Kind)> := [
    ("response.output_text.delta", TextDelta), ("response.output_item.done", ItemDone),
    ("response.completed", Completed), ("response.incomplete", Completed), ("response.failed", Failed)]

  const FINISH_WORDS: seq<(string, Finish)> := [
    ("max_output_tokens", Length), ("max_tokens", Length), ("length", Length), ("content_filter", ContentFilter)]

  function Lookup<T>(table: seq<(string, T)>, word: string, default: T): T {
    if table == [] then default
    else if table[0].0 == word then table[0].1
    else Lookup(table[1..], word, default)
  }

  function Classify(typ: string): Kind {
    Lookup(EVENT_WORDS, typ, Ignored)
  }

  function MapResponsesFinish(lib: Lib, reason: string): Finish {
    Lookup(FINISH_WORDS, lib.lower(TrimSpace(reason)), Stop)
  }

  // ---------------------------------------------------------------- lines to typed events

  /** An event together with the type it is treated as. */
  type Typed = (Kind, Event)

  datatype Scan = Scan(data: seq<string>, name: string, fed: seq<Typed>, sawDone: bool)

  const START := Scan([], "", [], false)

  function TypeOf(ev: Event, name: string): Kind {
    Classify(if ev.typ == "" then name else ev.typ)
  }

  /** The aggregator forgets the event name before it looks at the payload. */
  function AggregatorDispatch(lib: Lib, s: Scan): Scan {
    var payload := JoinLines(s.data);
    var t := s.(data := [], name := "");
    if TrimSpace(payload) == "" then t
    else if TrimSpace(payload) == "[DONE]" then t.(sawDone := true)
    else
      match lib.decode(payload)
      case None => t
      case Some(ev) => t.(fed := t.fed + [(TypeOf(ev, ""), ev)])
  }

  /** The emitter forgets it only once a decoded payload has used it. */
  function EmitterDispatch(lib: Lib, s: Scan): Scan {
    var payload := JoinLines(s.data);
    var t := s.(data := []);
    if TrimSpace(payload) == "" then t
    else if TrimSpace(payload) == "[DONE]" then t.(sawDone := true)
    else
      match lib.decode(payload)
      case None => t
      case Some(ev) => t.(fed := t.fed + [(TypeOf(ev, s.name), ev)], name := "")
  }

  function Dispatch(lib: Lib, s: Scan, emitter: bool): Scan {
    if emitter then EmitterDispatch(lib, s) else AggregatorDispatch(lib, s)
  }

  function ScanLine(lib: Lib, s: Scan, raw: string, emitter: bool): Scan {
    var line := TrimSpace(DropCr(raw));
    if line == "" then Dispatch(lib, s, emitter)
    else if line[0] == ':' then s
    else if "event:" <= line then s.(name := TrimSpace(line[6..]))
    else if "data:" <= line then s.(data := s.data + [TrimSpace(line[5..])])
    else s
  }

  function ScanLines(lib: Lib, lines: seq<string>, emitter: bool): Scan {
    if lines == [] then START
    else ScanLine(lib, ScanLines(lib, lines[..|lines| - 1], emitter), lines[|lines| - 1], emitter)
  }

  /** The whole body: the last event needs no blank line. */
  function Feed(lib: Lib, lines: seq<string>, emitter: bool): Scan {
    Dispatch(lib, ScanLines(lib, lines, emitter), emitter)
  }

  // ---------------------------------------------------------------- what a list of typed events says

  function TextOf(e: Typed): string {
    if e.0 != TextDelta then "" else if e.1.delta != "" then e.1.delta else e.1.text
  }

  predicate IsCall(e: Typed) {
    e.0 == ItemDone && e.1.item.Some? && e.1.item.value.typ == "function_call"
  }

  function CallOf(e: Typed): ToolCall
    requires IsCall(e)
  {
    var item := e.1.item.value;
    ToolCall(if item.callId != "" then item.callId else item.id, item.name, item.arguments)
  }

  function Texts(fed: seq<Typed>): seq<string> {
    if fed == [] then []
    else
      var last := fed[|fed| - 1];
      Texts(fed[..|fed| - 1]) + if TextOf(last) != "" then [TextOf(last)] else []
  }

  function Calls(fed: seq<Typed>): seq<ToolCall> {
    if fed == [] then []
    else
      var last := fed[|fed| - 1];
      Calls(fed[..|fed| - 1]) + if IsCall(last) then [CallOf(last)] else []
  }

  predicate Terminal(fed: seq<Typed>) {
    exists i :: 0 <= i < |fed| && (fed[i].0 == Completed || fed[i].0 == Failed)
  }

  /** The last failure reported, as the text appended to the fixed message. */
  function Failure(fed: seq<Typed>): Option<Error> {
    if fed == [] then None
    else if fed[|fed| - 1].0 == Failed then Some(UpstreamFailed(fed[|fed| - 1].1.error))
    else Failure(fed[..|fed| - 1])
  }

  function ReasonOf(ev: Event): string {
    if ev.response.None? then ""
    else
      var r := ev.response.value;
      var reason := if r.incompleteReason.Some? then r.incompleteReason.value else "";
      if reason == "" && r.status != "" && r.status != "completed" then r.status else reason
  }

  /** The finish of the last completion, which is tool_calls when a call came before it. */
  function FinishOf(lib: Lib, fed: seq<Typed>): Finish {
    if fed == [] then Stop
    else
      var init, last := fed[..|fed| - 1], fed[|fed| - 1];
      if last.0 != Completed then FinishOf(lib, init)
      else if Calls(init) != [] then ToolCalls
      else MapResponsesFinish(lib, ReasonOf(last.1))
  }

  function UsageFrom(t: Tokens): Usage {
    Usage(t.input, t.output, if t.total == 0 then t.input + t.output else t.total)
  }

  function UsageOf(fed: seq<Typed>): Option<Usage> {
    if fed == [] then None
    else
      var last := fed[|fed| - 1];
      if last.0 == Completed && last.1.response.Some? && last.1.response.value.usage.Some?
      then Some(UsageFrom(last.1.response.value.usage.value))
      else UsageOf(fed[..|fed| - 1])
  }

  function Problem(s: Scan): Option<Error> {
    if !Terminal(s.fed) then Some(Incomplete(s.sawDone)) else Failure(s.fed)
  }

  // ---------------------------------------------------------------- the aggregator

  datatype Parsed = Parsed(deltas: seq<string>, toolCalls: seq<ToolCall>, finish: Finish, usage: Option<Usage>)

  function Aggregated(lib: Lib, s: Scan): Result<Parsed, Error> {
    match Problem(s)
    case Some(e) => Err(e)
    case None => Ok(Parsed(Texts(s.fed), Calls(s.fed), FinishOf(lib, s.fed), UsageOf(s.fed)))
  }

  lemma TerminalNext(fed: seq<Typed>, e: Typed)
    ensures Terminal(fed + [e]) <==> Terminal(fed) || e.0 == Completed || e.0 == Failed
    ensures Failure(fed).Some? ==> Terminal(fed)
  {
    var next := fed + [e];
    if Terminal(fed) {
      var i :| 0 <= i < |fed| && (fed[i].0 == Completed || fed[i].0 == Failed);
      assert next[i] == fed[i];
    }
    assert next[|fed|] == e;
    FailureIsTerminal(fed);
  }

  lemma {:induction false} FailureIsTerminal(fed: seq<Typed>)
    ensures Failure(fed).Some? ==> Terminal(fed)
  {
    if fed != [] && fed[|fed| - 1].0 != Failed {
      FailureIsTerminal(fed[..|fed| - 1]);
      if Terminal(fed[..|fed| - 1]) {
        var i :| 0 <= i < |fed| - 1 && (fed[..|fed| - 1][i].0 == Completed || fed[..|fed| - 1][i].0 == Failed);
        assert fed[i].0 == Completed || fed[i].0 == Failed;
      }
    }
  }

  /** The six readings, kept event by event. */
  datatype Summary = Summary(texts: seq<string>, calls: seq<ToolCall>, finish: Finish, usage: Option<Usage>, terminal: bool, failure: Option<Error>)

  function Next(lib: Lib, s: Summary, e: Typed): Summary {
    match e.0
    case TextDelta => if TextOf(e) == "" then s else s.(texts := s.texts + [TextOf(e)])
    case ItemDone => if IsCall(e) then s.(calls := s.calls + [CallOf(e)]) else s
    case Completed =>
      s.(terminal := true,
         finish := if s.calls != [] then ToolCalls else MapResponsesFinish(lib, ReasonOf(e.1)),
         usage := if e.1.response.Some? && e.1.response.value.usage.Some? then Some(UsageFrom(e.1.response.value.usage.value)) else s.usage)
    case Failed => s.(terminal := true, failure := Some(UpstreamFailed(e.1.error)))
    case Ignored => s
  }

  function Summarise(lib: Lib, fed: seq<Typed>): Summary {
    if fed == [] then Summary([], [], Stop, None, false, None)
    else Next(lib, Summarise(lib, fed[..|fed| - 1]), fed[|fed| - 1])
  }

  /** Keeping the readings event by event is the same as taking each of them from the whole list. */
  lemma {:induction false} SummaryMeaning(lib: Lib, fed: seq<Typed>)
    ensures Summarise(lib, fed) == Summary(Texts(fed), Calls(fed), FinishOf(lib, fed), UsageOf(fed), Terminal(fed), Failure(fed))
  {
    if fed != [] {
      var init := fed[..|fed| - 1];
      SummaryMeaning(lib, init);
      TerminalNext(init, fed[|fed| - 1]);
      assert fed == init + [fed[|fed| - 1]];
      assert Texts(init) + [] == Texts(init) && Calls(init) + [] == Calls(init);
    }
  }

  lemma SummaryNext(lib: Lib, fed: seq<Typed>, e: Typed)
    ensures Summarise(lib, fed + [e]) == Next(lib, Summarise(lib, fed), e)
  {
  }

  /** The locals parseZenResponsesEvents updates. */
  class Aggregator {
    const lib: Lib
    var deltas: seq<string>
    var toolCalls: seq<ToolCall>
    var finish: Option<Finish>
    var usage: Option<Usage>
    var terminal: bool
    var failed: Option<Error>
    var sawDone: bool
    var eventName: string
    var dataLines: seq<string>

    ghost function Sum(): Summary
      reads this
    {
      Summary(deltas, toolCalls, if finish.Some? then finish.value else Stop, usage, terminal, failed)
    }

    ghost predicate Valid(s: Scan)
      reads this
    {
      dataLines == s.data && eventName == s.name && sawDone == s.sawDone && Sum() == Summarise(lib, s.fed)
    }

    constructor (lib: Lib)
      ensures this.lib == lib && Valid(START)
    {
      this.lib := lib;
      deltas, toolCalls, finish, usage := [], [], None, None;
      terminal, failed, sawDone, eventName, dataLines := false, None, false, "", [];
    }

    method Apply(kind: Kind, ev: Event)
      modifies this`deltas, this`toolCalls, this`finish, this`usage, this`terminal, this`failed
      ensures Sum() == Next(lib, old(Sum()), (kind, ev))
    {
      match kind {
        case TextDelta =>
          var text := ev.delta;
          if text == "" {
            text := ev.text;
          }
          if text != "" {
            deltas := deltas + [text];
          }
        case ItemDone =>
          if ev.item.Some? && ev.item.value.typ == "function_call" {
            var id := ev.item.value.callId;
            if id == "" {
              id := ev.item.value.id;
            }
            toolCalls := toolCalls + [ToolCall(id, ev.item.value.name, ev.item.value.arguments)];
          }
        case Completed =>
          terminal := true;
          finish := Some(MapResponsesFinish(lib, ReasonOf(ev)));
          if |toolCalls| > 0 {
            finish := Some(ToolCalls);
          }
          if ev.response.Some? && ev.response.value.usage.Some? {
            usage := Some(UsageFrom(ev.response.value.usage.value));
          }
        case Failed =>
          terminal := true;
          failed := Some(UpstreamFailed(ev.error));
        case Ignored =>
      }
    }

    method DispatchPending(ghost s: Scan)
      requires Valid(s)
      modifies this
      ensures Valid(AggregatorDispatch(lib, s))
    {
      var payload := JoinLines(dataLines);
      eventName, dataLines := "", [];
      if TrimSpace(payload) == "" {
        return;
      }
      if TrimSpace(payload) == "[DONE]" {
        sawDone := true;
        return;
      }
      var decoded := lib.decode(payload);
      if decoded.Some? {
        var ev := decoded.value;
        var kind := Classify(if ev.typ == "" then eventName else ev.typ);
        SummaryNext(lib, s.fed, (kind, ev));
        Apply(kind, ev);
      }
    }
  }

  /** parseZenResponsesEvents; scanError means the scanner gave up after these lines. */
  method ParseZenResponsesEvents(lib: Lib, lines: seq<string>, scanError: bool) returns (r: Result<Parsed, Error>)
    ensures r == if scanError then Err(Unreadable) else Aggregated(lib, Feed(lib, lines, false))
  {
    var a := new Aggregator(lib);
    for i := 0 to |lines|
      invariant fresh(a) && a.lib == lib && a.Valid(ScanLines(lib, lines[..i], false))
    {
      ghost var s := ScanLines(lib, lines[..i], false);
      assert lines[..i + 1][..i] == lines[..i];
      var line := TrimSpace(DropCr(lines[i]));
      if line == "" {
        a.DispatchPending(s);
      } else if line[0] == ':' {
      } else if "event:" <= line {
        a.eventName := TrimSpace(line[6..]);
      } else if "data:" <= line {
        a.dataLines := a.dataLines + [TrimSpace(line[5..])];
      }
    }
    if scanError {
      return Err(Unreadable);
    }
    assert lines[..|lines|] == lines;
    a.DispatchPending(ScanLines(lib, lines, false));
    SummaryMeaning(lib, Feed(lib, lines, false).fed);
    FailureIsTerminal(Feed(lib, lines, false).fed);
    if a.failed.Some? {
      return Err(a.failed.value);
    }
    if !a.terminal {
      return Err(Incomplete(a.sawDone));
    }
    r := Ok(Parsed(a.deltas, a.toolCalls, if a.finish.None? then Stop else a.finish.value, a.usage));
  }

  // ---------------------------------------------------------------- the incremental emitter

  datatype Chunk =
    | TextChunk(role: bool, text: string)
    | ToolChunk(index: nat, call: ToolCall)
    | FinishChunk(role: bool, finish: Finish)
    | UsageChunk(usage: Usage)
    | DoneMark

  /** What one typed event writes at once: role until a text chunk went out, calls numbered in order. */
  function EventChunks(before: Summary, e: Typed): seq<Chunk> {
    if TextOf(e) != "" then [TextChunk(before.texts == [], TextOf(e))]
    else if IsCall(e) then [ToolChunk(|before.calls|, CallOf(e))]
    else []
  }

  function LiveChunks(lib: Lib, fed: seq<Typed>): seq<Chunk> {
    if fed == [] then []
    else
      var init := fed[..|fed| - 1];
      LiveChunks(lib, init) + EventChunks(Summarise(lib, init), fed[|fed| - 1])
  }

  lemma LiveNext(lib: Lib, fed: seq<Typed>, e: Typed)
    ensures LiveChunks(lib, fed + [e]) == LiveChunks(lib, fed) + EventChunks(Summarise(lib, fed), e)
  {
  }

  /** What the emitter has gathered and written once it was fed these events. */
  predicate Stands(lib: Lib, fed: seq<Typed>, sum: Summary, chunks: seq<Chunk>) {
    sum == Summarise(lib, fed) && chunks == LiveChunks(lib, fed)
  }

  lemma StandsNext(lib: Lib, fed: seq<Typed>, sum: Summary, chunks: seq<Chunk>, e: Typed)
    requires Stands(lib, fed, sum, chunks)
    ensures Stands(lib, fed + [e], Next(lib, sum, e), chunks + EventChunks(sum, e))
  {
    SummaryNext(lib, fed, e);
    LiveNext(lib, fed, e);
  }

  function EndChunks(lib: Lib, fed: seq<Typed>): seq<Chunk> {
    [FinishChunk(Texts(fed) == [], FinishOf(lib, fed))]
    + (if UsageOf(fed).Some? then [UsageChunk(UsageOf(fed).value)] else [])
    + [DoneMark]
  }

  /** Everything written, and the error the stream ends with. */
  datatype Emission = Emission(chunks: seq<Chunk>, error: Option<Error>)

  function Emitted(lib: Lib, s: Scan): Emission {
    match Problem(s)
    case Some(e) => Emission(LiveChunks(lib, s.fed), Some(e))
    case None => Emission(LiveChunks(lib, s.fed) + EndChunks(lib, s.fed), None)
  }

  /** The locals of the goroutine in translateZenResponsesStream; pipe writes are assumed to succeed. */
  class Emitter {
    const lib: Lib
    var chunks: seq<Chunk>
    var role: bool
    var announced: bool
    ghost var texts: seq<string>
    var toolCalls: seq<ToolCall>
    var finish: Finish
    var usage: Option<Usage>
    var terminal: bool
    var failed: Option<Error>
    var sawDone: bool
    var eventName: string
    var dataLines: seq<string>

    ghost function Sum(): Summary
      reads this
    {
      Summary(texts, toolCalls, finish, usage, terminal, failed)
    }

    ghost predicate Valid(s: Scan)
      reads this
    {
      dataLines == s.data && eventName == s.name && sawDone == s.sawDone && Gathered(s.fed)
    }

    ghost predicate Gathered(fed: seq<Typed>)
      reads this
    {
      Stands(lib, fed, Sum(), chunks) && role == (texts == []) && announced == (chunks != [])
    }

    constructor (lib: Lib)
      ensures this.lib == lib && Valid(START)
    {
      this.lib := lib;
      chunks, role, announced, texts, toolCalls, finish, usage := [], true, false, [], [], Stop, None;
      terminal, failed, sawDone, eventName, dataLines := false, None, false, "", [];
    }

    method WriteText(text: string)
      requires text != ""
      modifies this`chunks, this`role, this`announced, this`texts
      ensures chunks == old(chunks) + [TextChunk(old(role), text)] && !role && announced && texts == old(texts) + [text]
    {
      chunks, texts := chunks + [TextChunk(role, text)], texts + [text];
      role, announced := false, true;
    }

    method WriteToolCall(call: ToolCall, index: nat)
      modifies this`chunks, this`announced
      ensures chunks == old(chunks) + [ToolChunk(index, call)] && announced
    {
      chunks := chunks + [ToolChunk(index, call)];
      announced := true;
    }

    method Apply(kind: Kind, ev: Event)
      requires role == (texts == []) && announced == (chunks != [])
      modifies this`chunks, this`role, this`announced, this`texts, this`toolCalls, this`finish, this`usage, this`terminal, this`failed
      ensures Sum() == Next(lib, old(Sum()), (kind, ev))
      ensures chunks == old(chunks) + EventChunks(old(Sum()), (kind, ev))
      ensures role == (texts == []) && announced == (chunks != [])
    {
      match kind {
        case TextDelta =>
          var delta := ev.delta;
          if delta == "" {
            delta := ev.text;
          }
          if delta != "" {
            WriteText(delta);
          }
        case ItemDone =>
          if ev.item.Some? && ev.item.value.typ == "function_call" {
            var id := ev.item.value.callId;
            if id == "" {
              id := ev.item.value.id;
            }
            var call := ToolCall(id, ev.item.value.name, ev.item.value.arguments);
            toolCalls := toolCalls + [call];
            WriteToolCall(call, |toolCalls| - 1);
          }
        case Completed =>
          terminal := true;
          if ev.response.Some? && ev.response.value.usage.Some? {
            usage := Some(UsageFrom(ev.response.value.usage.value));
          }
          finish := MapResponsesFinish(lib, ReasonOf(ev));
          if |toolCalls| > 0 {
            finish := ToolCalls;
          }
        case Failed =>
          terminal := true;
          failed := Some(UpstreamFailed(ev.error));
        case Ignored =>
      }
    }

    method DispatchPending(ghost s: Scan)
      requires Valid(s)
      modifies this
      ensures Valid(EmitterDispatch(lib, s))
    {
      var payload := JoinLines(dataLines);
      dataLines := [];
      if TrimSpace(payload) == "" {
        return;
      }
      if TrimSpace(payload) == "[DONE]" {
        sawDone := true;
        return;
      }
      var decoded := lib.decode(payload);
      if decoded.Some? {
        var ev := decoded.value;
        var kind := Classify(if ev.typ == "" then eventName else ev.typ);
        eventName := "";
        ApplyTo(kind, ev, s.fed);
      }
    }

    method ApplyTo(kind: Kind, ev: Event, ghost fed: seq<Typed>)
      requires Gathered(fed)
      modifies this`chunks, this`role, this`announced, this`texts, this`toolCalls, this`finish, this`usage, this`terminal, this`failed
      ensures Gathered(fed + [(kind, ev)])
    {
      ghost var sum, before, e: Typed := Sum(), chunks, (kind, ev);
      Apply(kind, ev);
      StandsNext(lib, fed, sum, before, e);
    }

    method HandleLine(raw: string, ghost s: Scan)
      requires Valid(s)
      modifies this
      ensures Valid(ScanLine(lib, s, raw, true))
    {
      var trim := TrimSpace(DropCr(raw));
      if trim == "" {
        DispatchPending(s);
        return;
      }
      if trim[0] == ':' {
        return;
      }
      if "event:" <= trim {
        eventName := TrimSpace(trim[6..]);
      } else if "data:" <= trim {
        dataLines := dataLines + [TrimSpace(trim[5..])];
      }
    }

    /** After the last dispatch: the error, or the closing chunks. */
    method Conclude(ghost s: Scan) returns (ready: Option<Error>, out: Emission)
      requires Valid(s)
      ensures out == Emitted(lib, s)
      ensures ready == if out.chunks == [] then out.error else None
    {
      SummaryMeaning(lib, s.fed);
      FailureIsTerminal(s.fed);
      if !terminal {
        return if announced then None else Some(Incomplete(sawDone)), Emission(chunks, Some(Incomplete(sawDone)));
      }
      if failed.Some? {
        return if announced then None else failed, Emission(chunks, failed);
      }
      var tail := [FinishChunk(role, finish)];
      if usage.Some? {
        tail := tail + [UsageChunk(usage.value)];
      }
      tail := tail + [DoneMark];
      assert tail == EndChunks(lib, s.fed);
      out := Emission(chunks + tail, None);
      ready := None;
    }
  }

  /** What the emitter writes, and how the stream ends, when scanning these lines ends well or with an error. */
  function Translated(lib: Lib, lines: seq<string>, scanError: bool): Emission {
    if scanError then Emission(LiveChunks(lib, ScanLines(lib, lines, true).fed), None) else Emitted(lib, Feed(lib, lines, true))
  }

  /** The caller hears of an error only while nothing has been written. */
  function ReadySignal(out: Emission, scanError: bool): Option<Error> {
    if out.chunks != [] then None else if scanError then Some(Unreadable) else out.error
  }

  /** translateZenResponsesStream. ready is what the caller sees first: an error only if nothing was announced.
      After that, a body that can no longer be read just ends the stream, with neither an error nor [DONE]. */
  method TranslateZenResponsesStream(lib: Lib, lines: seq<string>, scanError: bool) returns (ready: Option<Error>, out: Emission)
    ensures out == Translated(lib, lines, scanError)
    ensures ready == ReadySignal(out, scanError)
  {
    var e := new Emitter(lib);
    for i := 0 to |lines|
      invariant fresh(e) && e.lib == lib && e.Valid(ScanLines(lib, lines[..i], true))
    {
      assert lines[..i + 1][..i] == lines[..i];
      e.HandleLine(lines[i], ScanLines(lib, lines[..i], true));
    }
    assert lines[..|lines|] == lines;
    if scanError {
      return if e.announced then None else Some(Unreadable), Emission(e.chunks, None);
    }
    e.DispatchPending(ScanLines(lib, lines, true));
    ready, out := e.Conclude(Feed(lib, lines, true));
  }

  // ---------------------------------------------------------------- the two agree

  /** Reading the chunks back: joined text, tool calls in arrival order, finish and usage. */
  datatype View = View(content: string, calls: seq<(nat, ToolCall)>, finish: Option<Finish>, usage: Option<Usage>, done: bool)

  function See(v: View, c: Chunk): View {
    match c
    case TextChunk(_, text) => v.(content := v.content + text)
    case ToolChunk(index, call) => v.(calls := v.calls + [(index, call)])
    case FinishChunk(_, finish) => v.(finish := Some(finish))
    case UsageChunk(usage) => v.(usage := Some(usage))
    case DoneMark => v.(done := true)
  }

  function Read(chunks: seq<Chunk>): View {
    if chunks == [] then View("", [], None, None, false)
    else See(Read(chunks[..|chunks| - 1]), chunks[|chunks| - 1])
  }

  function Concat(texts: seq<string>): string {
    if texts == [] then "" else Concat(texts[..|texts| - 1]) + texts[|texts| - 1]
  }

  function Indexed(calls: seq<ToolCall>): seq<(nat, ToolCall)> {
    seq(|calls|, i requires 0 <= i < |calls| => (i, calls[i]))
  }

  lemma ReadNext(chunks: seq<Chunk>, c: Chunk)
    ensures Read(chunks + [c]) == See(Read(chunks), c)
  {
  }

  lemma ConcatNext(texts: seq<string>, text: string)
    ensures Concat(texts + [text]) == Concat(texts) + text
  {
  }

  lemma ReadEvent(lib: Lib, live: seq<Chunk>, sum: Summary, e: Typed)
    requires Read(live) == View(Concat(sum.texts), Indexed(sum.calls), None, None, false)
    ensures var next := Next(lib, sum, e);
            Read(live + EventChunks(sum, e)) == View(Concat(next.texts), Indexed(next.calls), None, None, false)
  {
    if TextOf(e) != "" {
      ReadNext(live, TextChunk(sum.texts == [], TextOf(e)));
      ConcatNext(sum.texts, TextOf(e));
    } else if IsCall(e) {
      ReadNext(live, ToolChunk(|sum.calls|, CallOf(e)));
      assert Indexed(sum.calls + [CallOf(e)]) == Indexed(sum.calls) + [(|sum.calls|, CallOf(e))];
    } else {
      assert live + [] == live;
    }
  }

  lemma {:induction false} ReadLive(lib: Lib, fed: seq<Typed>)
    ensures Read(LiveChunks(lib, fed)) == View(Concat(Texts(fed)), Indexed(Calls(fed)), None, None, false)
  {
    if fed != [] {
      var init, e := fed[..|fed| - 1], fed[|fed| - 1];
      ReadLive(lib, init);
      SummaryMeaning(lib, init);
      SummaryMeaning(lib, fed);
      ReadEvent(lib, LiveChunks(lib, init), Summarise(lib, init), e);
    }
  }

  lemma ReadTail(before: seq<Chunk>, role: bool, finish: Finish, usage: Option<Usage>)
    requires Read(before).usage.None?
    ensures Read(before + ([FinishChunk(role, finish)] + (if usage.Some? then [UsageChunk(usage.value)] else []) + [DoneMark]))
         == Read(before).(finish := Some(finish), usage := usage, done := true)
  {
    var next := before + [FinishChunk(role, finish)];
    ReadNext(before, FinishChunk(role, finish));
    if usage.Some? {
      ReadNext(next, UsageChunk(usage.value));
      ReadNext(next + [UsageChunk(usage.value)], DoneMark);
      assert next + [UsageChunk(usage.value)] + [DoneMark] == before + ([FinishChunk(role, finish)] + [UsageChunk(usage.value)] + [DoneMark]);
    } else {
      ReadNext(next, DoneMark);
      assert next + [DoneMark] == before + ([FinishChunk(role, finish)] + [] + [DoneMark]);
    }
  }

  lemma ReadEmitted(lib: Lib, s: Scan)
    ensures Read(Emitted(lib, s).chunks) ==
            if Problem(s).Some? then View(Concat(Texts(s.fed)), Indexed(Calls(s.fed)), None, None, false)
            else View(Concat(Texts(s.fed)), Indexed(Calls(s.fed)), Some(FinishOf(lib, s.fed)), UsageOf(s.fed), true)
  {
    ReadLive(lib, s.fed);
    if Problem(s).None? {
      ReadTail(LiveChunks(lib, s.fed), Texts(s.fed) == [], FinishOf(lib, s.fed), UsageOf(s.fed));
    }
  }

  /** A payload without a type, waiting for a name that the emitter would use and the aggregator forgets. */
  predicate Orphan(lib: Lib, s: Scan) {
    var payload := JoinLines(s.data);
    && TrimSpace(payload) != "" && TrimSpace(payload) != "[DONE]"
    && match lib.decode(payload) case None => false case Some(ev) => ev.typ == "" && Classify(s.name) != Classify("")
  }

  /** No dispatch of the body meets an orphan. */
  predicate NoOrphans(lib: Lib, lines: seq<string>) {
    if lines == [] then true
    else
      var init := lines[..|lines| - 1];
      NoOrphans(lib, init)
      && (TrimSpace(DropCr(lines[|lines| - 1])) == "" ==> !Orphan(lib, ScanLines(lib, init, true)))
  }

  predicate AllNamed(lib: Lib, lines: seq<string>) {
    NoOrphans(lib, lines) && !Orphan(lib, ScanLines(lib, lines, true))
  }

  /** How the two scans stand to each other: equal but for the name, until an orphan splits them for good. */
  ghost predicate InStep(a: Scan, e: Scan, same: bool) {
    && a.data == e.data && a.sawDone == e.sawDone && |a.fed| == |e.fed|
    && (a.fed == e.fed <==> same)
  }

  lemma DispatchInStep(lib: Lib, a: Scan, e: Scan, same: bool)
    requires InStep(a, e, same)
    ensures InStep(AggregatorDispatch(lib, a), EmitterDispatch(lib, e), same && !Orphan(lib, e))
  {
    var a', e' := AggregatorDispatch(lib, a), EmitterDispatch(lib, e);
    if |a'.fed| > |a.fed| {
      assert a'.fed[..|a.fed|] == a.fed && e'.fed[..|a.fed|] == e.fed;
      assert a'.fed[|a.fed|].1 == e'.fed[|a.fed|].1;
    }
  }

  lemma {:induction false} ScansInStep(lib: Lib, lines: seq<string>)
    ensures InStep(ScanLines(lib, lines, false), ScanLines(lib, lines, true), NoOrphans(lib, lines))
  {
    if lines != [] {
      var init := lines[..|lines| - 1];
      ScansInStep(lib, init);
      DispatchInStep(lib, ScanLines(lib, init, false), ScanLines(lib, init, true), NoOrphans(lib, init));
    }
  }

  /** Both folds are fed the same typed events exactly when no untyped payload relies on an event: name. */
  lemma SameEvents(lib: Lib, lines: seq<string>)
    ensures Feed(lib, lines, false).fed == Feed(lib, lines, true).fed <==> AllNamed(lib, lines)
    ensures Feed(lib, lines, false).sawDone == Feed(lib, lines, true).sawDone
  {
    ScansInStep(lib, lines);
    DispatchInStep(lib, ScanLines(lib, lines, false), ScanLines(lib, lines, true), NoOrphans(lib, lines));
  }

  /** Then the emitter's chunks read back as the aggregator's answer, and [DONE] is written exactly when the
      aggregator succeeds; otherwise both report the same error. */
  lemma EmitterAgreesWithAggregator(lib: Lib, lines: seq<string>)
    requires AllNamed(lib, lines)
    ensures var out := Emitted(lib, Feed(lib, lines, true));
            var view := Read(out.chunks);
            match Aggregated(lib, Feed(lib, lines, false))
            case Ok(p) =>
              out.error.None? && view == View(Concat(p.deltas), Indexed(p.toolCalls), Some(p.finish), p.usage, true)
            case Err(e) =>
              out.error == Some(e) && !view.done && view.finish.None?
  {
    SameEvents(lib, lines);
    ReadEmitted(lib, Feed(lib, lines, true));
  }
}
