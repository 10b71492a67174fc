/** events.go: the event normalizer between the Command Code wire events and the two response sinks. */
module Events {
  import opened Base

  // ---------------------------------------------------------------- wire events

  /** A decoded JSON value. Strings and null are told apart; any other value stays opaque. */
  datatype Json = JNull | JText(text: string) | JValue(raw: string)

  datatype TokenDetails = TokenDetails(cacheRead: int, cacheWrite: int)

  datatype CcUsage = CcUsage(input: int, output: int, total: int, details: Option<TokenDetails>)

  datatype Kind =
    | TextDelta | ReasoningDelta | ToolCallKind
    | ToolInputStart | ToolInputDelta | ToolInputEnd | ToolInputAvailable | ToolError
    | FinishStep | FinishKind | TextEndKind | ReasoningEndKind | ErrorKind | OtherKind

  datatype Event = Event(
    kind: Kind, id: string, toolCallId: string, text: string, delta: string, toolName: string,
    input: Option<Json>, args: Option<Json>, arguments: Option<Json>,
    finishReason: string, rawFinishReason: string,
    usage: Option<CcUsage>, totalUsage: Option<CcUsage>, error: string)

  /** The JSON codec, left abstract: whether a text is one complete JSON object, and the
      canonical object text of a non-string value (None when it is not an object). */
  datatype Codec = Codec(isObject: string -> bool, canonical: string -> Option<string>)

  // ---------------------------------------------------------------- normalized events

  datatype Source = Unknown | Authoritative

  datatype ToolCall = ToolCall(id: string, name: string, arguments: string, source: Source)

  datatype Reason = Stop | ToolCalls | Length | ContentFilter

  datatype Usage = Usage(prompt: int, completion: int, total: int, cached: Option<int>)

  const ZERO_USAGE := Usage(0, 0, 0, None)

  datatype Out =
    | Text(text: string) | Reasoning(text: string) | Call(call: ToolCall)
    | TextEnd | ReasoningEnd | Finish(reason: Reason, usage: Usage, truncated: bool)

  datatype Error =
    | MissingStartId | MissingDeltaId | BadToolCall(id: string) | BadFinish(reason: string)
    | UpstreamError(message: string) | NoValidToolCalls | ReadError(message: string)

  function EventText(ev: Event): string {
    if ev.text != "" then ev.text else ev.delta
  }

  function EventToolCallId(ev: Event): string {
    if ev.toolCallId != "" then ev.toolCallId else ev.id
  }

  function EventToolInput(ev: Event): Option<Json> {
    if ev.input.Some? then ev.input else if ev.args.Some? then ev.args else ev.arguments
  }

  predicate StartsWithBrace(s: string) {
    s != "" && s[0] == '{'
  }

  function EncodeToolCallArguments(codec: Codec, input: Json): Option<string> {
    match input
    case JNull => None
    case JText(text) =>
      var raw := TrimSpace(text);
      if raw != "" && codec.isObject(raw) then Some(raw) else None
    case JValue(raw) => codec.canonical(raw)
  }

  /** validateToolCall; the call's type is always "function" in this model. */
  predicate ValidToolCall(codec: Codec, call: ToolCall) {
    && TrimSpace(call.id) != ""
    && TrimSpace(call.name) != ""
    && StartsWithBrace(TrimSpace(call.arguments))
    && codec.isObject(TrimSpace(call.arguments))
  }

  function ToolCallFromEvent(codec: Codec, ev: Event): (r: Result<ToolCall, Error>)
    ensures r.Ok? ==> ValidToolCall(codec, r.value) && r.value.source == Authoritative && r.value.id != ""
  {
    var id := EventToolCallId(ev);
    var input := EventToolInput(ev);
    if TrimSpace(id) == "" || input.None? then Err(BadToolCall(id))
    else
      var encoded := EncodeToolCallArguments(codec, input.value);
      if encoded.None? then Err(BadToolCall(id))
      else
        var call := ToolCall(id, ev.toolName, encoded.value, Authoritative);
        if ValidToolCall(codec, call) then Ok(call) else Err(BadToolCall(id))
  }

  /** The ID an event names: its tool-call ID or, when that is empty, its own. */
  ghost predicate Names(ev: Event, id: string) {
    if ev.toolCallId != "" then id == ev.toolCallId else id == ev.id
  }

  /** The input a call event carries: the first there is of input, args and arguments. */
  ghost predicate CarriesInput(ev: Event, input: Json) {
    || ev.input == Some(input)
    || (ev.input.None? && ev.args == Some(input))
    || (ev.input.None? && ev.args.None? && ev.arguments == Some(input))
  }

  /** The argument text of an input that is one JSON object. */
  ghost predicate ArgumentText(codec: Codec, input: Json, text: string) {
    match input
    case JNull => false
    case JText(raw) => text == TrimSpace(raw)
    case JValue(raw) => codec.canonical(raw) == Some(text)
  }

  /** This event is this call: it has an ID, a name and one JSON object for input. */
  ghost predicate IsCall(codec: Codec, ev: Event, call: ToolCall) {
    && Names(ev, call.id) && TrimSpace(call.id) != ""
    && call.name == ev.toolName && TrimSpace(call.name) != ""
    && (exists input :: CarriesInput(ev, input) && ArgumentText(codec, input, call.arguments))
    && StartsWithBrace(TrimSpace(call.arguments)) && codec.isObject(TrimSpace(call.arguments))
    && call.source == Authoritative
  }

  /** An event becomes a call exactly when it is one, then that one; otherwise its ID is blamed. */
  lemma AcceptedCalls(codec: Codec, ev: Event, call: ToolCall)
    ensures ToolCallFromEvent(codec, ev) == Ok(call) <==> IsCall(codec, ev, call)
    ensures match ToolCallFromEvent(codec, ev)
            case Ok(_) => true
            case Err(e) => e.BadToolCall? && Names(ev, e.id)
  {
    var input := EventToolInput(ev);
    if input.Some? {
      InputCarried(ev, input.value);
      ArgumentsEncoded(codec, input.value, call.arguments);
    }
    if IsCall(codec, ev, call) {
      var carried :| CarriesInput(ev, carried) && ArgumentText(codec, carried, call.arguments);
      InputCarried(ev, carried);
    }
  }

  lemma InputCarried(ev: Event, input: Json)
    ensures EventToolInput(ev) == Some(input) <==> CarriesInput(ev, input)
  {
  }

  lemma ArgumentsEncoded(codec: Codec, input: Json, text: string)
    ensures EncodeToolCallArguments(codec, input) == Some(text) && StartsWithBrace(TrimSpace(text)) && codec.isObject(TrimSpace(text))
            <==> ArgumentText(codec, input, text) && StartsWithBrace(TrimSpace(text)) && codec.isObject(TrimSpace(text))
  {
    if input.JText? {
      TrimTwice(input.text);
    }
  }

  const FINISH_WORDS: seq<(string, Reason)> := [
    ("stop", Stop), ("end", Stop), ("end_turn", Stop),
    ("tool-calls", ToolCalls), ("tool_calls", ToolCalls), ("tool_use", ToolCalls), ("function_call", ToolCalls),
    ("max_tokens", Length), ("max_output_tokens", Length), ("length", Length),
    ("content_filter", ContentFilter)]

  function LookupWord(table: seq<(string, Reason)>, word: string): Option<Reason> {
    if table == [] then None
    else if table[0].0 == word then Some(table[0].1)
    else LookupWord(table[1..], word)
  }

  function NormalizeFinishReason(reason: string): Result<Reason, Error> {
    match LookupWord(FINISH_WORDS, TrimSpace(reason))
    case Some(r) => Ok(r)
    case None => Err(BadFinish(reason))
  }

  function FinishReasonOf(ev: Event): Result<Reason, Error> {
    NormalizeFinishReason(if TrimSpace(ev.finishReason) == "" then ev.rawFinishReason else ev.finishReason)
  }

  // ---------------------------------------------------------------- tool call deduplication

  predicate SameId(a: ToolCall, b: ToolCall) {
    a.id != "" && a.id == b.id
  }

  function AddCall(kept: seq<ToolCall>, c: ToolCall): seq<ToolCall> {
    if kept == [] then [c]
    else if SameId(kept[0], c) then
      (if c.source == Authoritative && kept[0].source == Unknown then [c] + kept[1..] else kept)
    else [kept[0]] + AddCall(kept[1..], c)
  }

  /** toolCallDeduper.Add. */
  method DeduperAdd(kept: seq<ToolCall>, c: ToolCall) returns (kept': seq<ToolCall>, added: bool)
    ensures kept' == AddCall(kept, c)
    ensures added <==> forall i :: 0 <= i < |kept| ==> !SameId(kept[i], c)
  {
    for i := 0 to |kept|
      invariant forall j :: 0 <= j < i ==> !SameId(kept[j], c)
      invariant AddCall(kept, c) == kept[..i] + AddCall(kept[i..], c)
    {
      if SameId(kept[i], c) {
        if c.source == Authoritative && kept[i].source == Unknown {
          assert kept[..i] + ([c] + kept[i + 1..]) == kept[i := c];
          return kept[i := c], false;
        }
        assert kept[..i] + kept[i..] == kept;
        return kept, false;
      }
      assert kept[i..][1..] == kept[i + 1..];
      assert kept[..i] + ([kept[i]] + AddCall(kept[i + 1..], c)) == kept[..i + 1] + AddCall(kept[i + 1..], c);
    }
    assert kept[..|kept|] == kept;
    return kept + [c], true;
  }

  predicate HasId(calls: seq<ToolCall>, id: string) {
    exists i :: 0 <= i < |calls| && calls[i].id == id
  }

  /** The independent reading of deduplication: the calls no earlier call shares its ID with. */
  function FirstPerId(calls: seq<ToolCall>): (r: seq<ToolCall>)
    ensures forall id :: HasId(r, id) <==> HasId(calls, id)
  {
    if calls == [] then []
    else
      var init, last := calls[..|calls| - 1], calls[|calls| - 1];
      assert forall id :: HasId(calls, id) <==> HasId(init, id) || id == last.id by {
        forall id | HasId(init, id) ensures HasId(calls, id) {
          var i :| 0 <= i < |init| && init[i].id == id;
          assert calls[i].id == id;
        }
        assert calls[|calls| - 1].id == last.id;
        forall id | HasId(calls, id) ensures HasId(init, id) || id == last.id {
          var i :| 0 <= i < |calls| && calls[i].id == id;
          assert i < |init| ==> init[i].id == id;
        }
      }
      var r := FirstPerId(init);
      assert forall id :: HasId(r + [last], id) <==> HasId(r, id) || id == last.id by {
        forall id | HasId(r, id) ensures HasId(r + [last], id) {
          var i :| 0 <= i < |r| && r[i].id == id;
          assert (r + [last])[i].id == id;
        }
        assert (r + [last])[|r|].id == last.id;
        forall id | HasId(r + [last], id) ensures HasId(r, id) || id == last.id {
          var i :| 0 <= i < |r + [last]| && (r + [last])[i].id == id;
          assert i < |r| ==> r[i].id == id;
        }
      }
      if HasId(init, last.id) then r else r + [last]
  }

  /** Call i is the earliest with its ID. */
  predicate IsFirst(calls: seq<ToolCall>, i: int)
    requires 0 <= i < |calls|
  {
    forall j :: 0 <= j < i ==> calls[j].id != calls[i].id
  }

  predicate Increasing(at: seq<nat>) {
    forall k, h :: 0 <= k < h < |at| ==> at[k] < at[h]
  }

  /** What is kept are the earliest calls of every ID, all of them, in their order. */
  lemma {:induction false} FirstPerIdMeaning(calls: seq<ToolCall>) returns (at: seq<nat>)
    ensures |at| == |FirstPerId(calls)| && Increasing(at)
    ensures forall k :: 0 <= k < |at| ==> at[k] < |calls| && FirstPerId(calls)[k] == calls[at[k]] && IsFirst(calls, at[k])
    ensures forall i :: 0 <= i < |calls| && IsFirst(calls, i) ==> i in at
  {
    if calls == [] {
      at := [];
    } else {
      var m := |calls| - 1;
      var init := calls[..m];
      at := FirstPerIdMeaning(init);
      assert forall i :: 0 <= i < m ==> (IsFirst(init, i) <==> IsFirst(calls, i));
      NoneBefore(calls);
      if IsFirst(calls, m) {
        at := at + [m];
      }
    }
  }

  lemma NoneBefore(calls: seq<ToolCall>)
    requires calls != []
    ensures IsFirst(calls, |calls| - 1) <==> !HasId(calls[..|calls| - 1], calls[|calls| - 1].id)
  {
    var m := |calls| - 1;
    if !IsFirst(calls, m) {
      var j :| 0 <= j < m && calls[j].id == calls[m].id;
      assert calls[..m][j].id == calls[m].id;
    }
  }

  predicate Authoritatives(calls: seq<ToolCall>) {
    forall i :: 0 <= i < |calls| ==> calls[i].source == Authoritative && calls[i].id != ""
  }

  lemma {:induction false} AddAuthoritative(kept: seq<ToolCall>, c: ToolCall)
    requires Authoritatives(kept) && Authoritatives([c])
    ensures AddCall(kept, c) == if HasId(kept, c.id) then kept else kept + [c]
  {
    assert [c][0].id != "";
    if kept != [] && !SameId(kept[0], c) {
      AddAuthoritative(kept[1..], c);
      assert HasId(kept, c.id) <==> HasId(kept[1..], c.id) by {
        if HasId(kept, c.id) {
          var i :| 0 <= i < |kept| && kept[i].id == c.id;
          assert kept[1..][i - 1].id == c.id;
        }
        if HasId(kept[1..], c.id) {
          var i :| 0 <= i < |kept[1..]| && kept[1..][i].id == c.id;
          assert kept[i + 1].id == c.id;
        }
      }
    } else if kept != [] {
      assert kept[0].id == c.id;
    }
  }

  // ---------------------------------------------------------------- the normalizer

  datatype Norm = Norm(
    buf: map<string, string>, order: seq<string>, kept: seq<ToolCall>,
    usage: Usage, cacheRead: int, cacheWrite: int, finished: bool, truncated: bool)

  const EMPTY_NORM := Norm(map[], [], [], ZERO_USAGE, 0, 0, false, false)

  predicate NoDuplicates(s: seq<string>) {
    forall i, j :: 0 <= i < j < |s| ==> s[i] != s[j]
  }

  /** The provisional buffer and its order list name the same IDs, each once. */
  ghost predicate BufferInv(n: Norm) {
    && NoDuplicates(n.order)
    && forall id :: id in n.buf <==> id in n.order
  }

  function WithUsage(n: Norm, u: CcUsage): Norm {
    n.(usage := Usage(u.input, u.output, if u.total > 0 then u.total else u.input + u.output,
                      if u.details.Some? then Some(u.details.value.cacheRead) else None),
       cacheRead := if u.details.Some? then u.details.value.cacheRead else 0,
       cacheWrite := if u.details.Some? then u.details.value.cacheWrite else 0)
  }

  function WithUsageIf(n: Norm, u: Option<CcUsage>): Norm {
    if u.Some? then WithUsage(n, u.value) else n
  }

  function Track(n: Norm, id: string, text: string): Norm {
    n.(buf := n.buf[id := text], order := if id in n.buf then n.order else n.order + [id])
  }

  function Remove(s: seq<string>, id: string): seq<string> {
    if s == [] then [] else if s[0] == id then s[1..] else [s[0]] + Remove(s[1..], id)
  }

  /** tool-input-start opens an empty buffer, tool-input-delta appends to it. */
  function BufferInput(n: Norm, id: string, delta: string, append: bool): (Norm, Result<seq<Out>, Error>) {
    if id == "" then (n, Err(if append then MissingDeltaId else MissingStartId))
    else (Track(n, id, if !append then "" else if id in n.buf then n.buf[id] + delta else delta), Ok([]))
  }

  function Forget(n: Norm, id: string): Norm {
    n.(buf := map k | k in n.buf && k != id :: n.buf[k], order := Remove(n.order, id))
  }

  function CallOuts(calls: seq<ToolCall>): (r: seq<Out>)
    ensures |r| == |calls|
  {
    seq(|calls|, i requires 0 <= i < |calls| => Call(calls[i]))
  }

  function ConsumeFinish(n: Norm, reason: Result<Reason, Error>, total: Option<CcUsage>): (Norm, Result<seq<Out>, Error>) {
    if n.finished then (n, Ok([]))
    else if reason.Err? then (n, Err(reason.error))
    else
      var n' := WithUsageIf(n, total).(buf := map[], order := [], finished := true, truncated := reason.value == Length);
      (n', Ok(CallOuts(n.kept) + [Finish(reason.value, n'.usage, n'.truncated)]))
  }

  function Consume(codec: Codec, n: Norm, ev: Event): (Norm, Result<seq<Out>, Error>) {
    match ev.kind
    case TextDelta => (n, Ok([Text(EventText(ev))]))
    case ReasoningDelta => (n, Ok([Reasoning(EventText(ev))]))
    case ToolCallKind =>
      var call := ToolCallFromEvent(codec, ev);
      if call.Err? then (n, Err(call.error)) else (n.(kept := AddCall(n.kept, call.value)), Ok([]))
    case ToolInputStart => BufferInput(n, EventToolCallId(ev), ev.delta, false)
    case ToolInputDelta => BufferInput(n, EventToolCallId(ev), ev.delta, true)
    case ToolInputEnd => (if EventToolCallId(ev) == "" then n else Forget(n, EventToolCallId(ev)), Ok([]))
    case ToolInputAvailable => (if EventToolCallId(ev) == "" then n else Forget(n, EventToolCallId(ev)), Ok([]))
    case ToolError => (Forget(n, EventToolCallId(ev)), Ok([]))
    case FinishStep => (if n.finished then n else WithUsageIf(n, ev.usage), Ok([]))
    case FinishKind => ConsumeFinish(n, FinishReasonOf(ev), ev.totalUsage)
    case TextEndKind => (n, Ok([TextEnd]))
    case ReasoningEndKind => (n, Ok([ReasoningEnd]))
    case ErrorKind => (n, Err(UpstreamError(ev.error)))
    case OtherKind => (n, Ok([]))
  }

  lemma {:induction false} RemoveMeaning(s: seq<string>, id: string)
    requires NoDuplicates(s)
    ensures NoDuplicates(Remove(s, id))
    ensures forall x :: x in Remove(s, id) <==> x in s && x != id
  {
    if s != [] {
      RemoveMeaning(s[1..], id);
      assert forall x :: x in s <==> x == s[0] || x in s[1..];
      if s[0] == id {
        assert id !in s[1..];
      } else {
        var r := Remove(s[1..], id);
        assert s[0] !in r;
        assert forall x :: x in [s[0]] + r <==> x == s[0] || x in r;
      }
    }
  }

  lemma ForgetKeepsInv(n: Norm, id: string)
    requires BufferInv(n)
    ensures BufferInv(Forget(n, id))
  {
    RemoveMeaning(n.order, id);
  }

  lemma TrackKeepsInv(n: Norm, id: string, text: string)
    requires BufferInv(n)
    ensures BufferInv(Track(n, id, text))
  {
  }

  lemma ConsumeKeepsInv(codec: Codec, n: Norm, ev: Event)
    requires BufferInv(n)
    ensures BufferInv(Consume(codec, n, ev).0)
  {
    var id := EventToolCallId(ev);
    match ev.kind
    case ToolInputStart => TrackKeepsInv(n, id, "");
    case ToolInputDelta => TrackKeepsInv(n, id, if id in n.buf then n.buf[id] + ev.delta else ev.delta);
    case ToolInputEnd => ForgetKeepsInv(n, id);
    case ToolInputAvailable => ForgetKeepsInv(n, id);
    case ToolError => ForgetKeepsInv(n, id);
    case _ =>
  }

  /** The loop of forgetToolInput: cut the first entry equal to id out of the slice. */
  method RemoveFirst(order: seq<string>, id: string) returns (rest: seq<string>)
    ensures rest == Remove(order, id)
  {
    for i := 0 to |order|
      invariant Remove(order, id) == order[..i] + Remove(order[i..], id)
    {
      assert order[i..][1..] == order[i + 1..];
      if order[i] == id {
        return order[..i] + order[i + 1..];
      }
      assert order[..i + 1] == order[..i] + [order[i]];
    }
    assert order[..|order|] == order;
    rest := order;
  }

  /** ccEventNormalizer, updated in place. */
  class Normalizer {
    var toolInputBuf: map<string, string>
    var toolInputOrder: seq<string>
    var kept: seq<ToolCall>
    var usage: Usage
    var cacheRead: int
    var cacheWrite: int
    var finished: bool
    var truncated: bool

    ghost function State(): Norm
      reads this
    {
      Norm(toolInputBuf, toolInputOrder, kept, usage, cacheRead, cacheWrite, finished, truncated)
    }

    ghost predicate Valid()
      reads this
    {
      BufferInv(State())
    }

    constructor ()
      ensures Valid() && State() == EMPTY_NORM
    {
      toolInputBuf, toolInputOrder, kept := map[], [], [];
      usage, cacheRead, cacheWrite := ZERO_USAGE, 0, 0;
      finished, truncated := false, false;
    }

    method SetUsage(u: CcUsage)
      modifies this
      ensures State() == WithUsage(old(State()), u)
    {
      usage := usage.(prompt := u.input, completion := u.output);
      if u.total > 0 {
        usage := usage.(total := u.total);
      } else {
        usage := usage.(total := u.input + u.output);
      }
      if u.details.Some? {
        cacheRead, cacheWrite := u.details.value.cacheRead, u.details.value.cacheWrite;
        usage := usage.(cached := Some(u.details.value.cacheRead));
      } else {
        cacheRead, cacheWrite := 0, 0;
        usage := usage.(cached := None);
      }
    }

    method TrackToolInput(id: string)
      modifies this
      ensures State() == if id in old(toolInputBuf) then old(State()) else Track(old(State()), id, "")
    {
      if id in toolInputBuf {
        return;
      }
      toolInputBuf := toolInputBuf[id := ""];
      toolInputOrder := toolInputOrder + [id];
    }

    method ForgetToolInput(id: string)
      modifies this
      ensures State() == Forget(old(State()), id)
    {
      toolInputBuf := map k | k in toolInputBuf && k != id :: toolInputBuf[k];
      toolInputOrder := RemoveFirst(toolInputOrder, id);
    }

    method ConsumeEvent(codec: Codec, ev: Event) returns (out: Result<seq<Out>, Error>)
      requires Valid()
      modifies this
      ensures Valid()
      ensures (State(), out) == Consume(codec, old(State()), ev)
    {
      ConsumeKeepsInv(codec, State(), ev);
      out := Ok([]);
      match ev.kind {
        case TextDelta => out := Ok([Text(EventText(ev))]);
        case ReasoningDelta => out := Ok([Reasoning(EventText(ev))]);
        case ToolCallKind =>
          var call := ToolCallFromEvent(codec, ev);
          if call.Err? {
            return Err(call.error);
          }
          var added: bool;
          kept, added := DeduperAdd(kept, call.value);
        case ToolInputStart => out := BufferToolInput(ev, false);
        case ToolInputDelta => out := BufferToolInput(ev, true);
        case ToolInputEnd => FinishToolInput(ev);
        case ToolInputAvailable => FinishToolInput(ev);
        case ToolError => ForgetToolInput(EventToolCallId(ev));
        case FinishStep =>
          if !finished && ev.usage.Some? {
            SetUsage(ev.usage.value);
          }
        case FinishKind =>
          out := Commit(FinishReasonOf(ev), ev.totalUsage);
        case TextEndKind => out := Ok([TextEnd]);
        case ReasoningEndKind => out := Ok([ReasoningEnd]);
        case ErrorKind => out := Err(UpstreamError(ev.error));
        case OtherKind =>
      }
    }

    method BufferToolInput(ev: Event, append: bool) returns (out: Result<seq<Out>, Error>)
      modifies this
      ensures (State(), out) == BufferInput(old(State()), EventToolCallId(ev), ev.delta, append)
    {
      var id := EventToolCallId(ev);
      if id == "" {
        return Err(if append then MissingDeltaId else MissingStartId);
      }
      TrackToolInput(id);
      toolInputBuf := toolInputBuf[id := if append then toolInputBuf[id] + ev.delta else ""];
      assert "" + ev.delta == ev.delta;
      assert State().buf == old(toolInputBuf)[id := toolInputBuf[id]];
      out := Ok([]);
    }

    method Commit(reason: Result<Reason, Error>, total: Option<CcUsage>) returns (out: Result<seq<Out>, Error>)
      requires Valid()
      modifies this
      ensures (State(), out) == ConsumeFinish(old(State()), reason, total)
    {
      if finished {
        return Ok([]);
      }
      if reason.Err? {
        return Err(reason.error);
      }
      if total.Some? {
        SetUsage(total.value);
      }
      ForgetAll();
      finished, truncated := true, reason.value == Length;
      out := Ok(CallOuts(kept) + [Finish(reason.value, usage, truncated)]);
    }

    /** finishToolInput; its error is discarded by the only caller. */
    method FinishToolInput(ev: Event)
      modifies this
      ensures State() == if EventToolCallId(ev) == "" then old(State()) else Forget(old(State()), EventToolCallId(ev))
    {
      var id := EventToolCallId(ev);
      if id != "" {
        ForgetToolInput(id);
      }
    }

    /** The finish-time loop: every ID of a copy of the order list is forgotten in turn. */
    method ForgetAll()
      requires Valid()
      modifies this
      ensures State() == old(State()).(buf := map[], order := [])
    {
      var ids := toolInputOrder;
      for i := 0 to |ids|
        invariant Valid()
        invariant toolInputOrder == ids[i..]
        invariant State() == old(State()).(buf := toolInputBuf, order := toolInputOrder)
      {
        ForgetKeepsInv(State(), ids[i]);
        ForgetToolInput(ids[i]);
      }
      assert forall id :: id !in toolInputBuf;
    }
  }
}
