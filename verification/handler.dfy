/** handler.go: the streaming and the single-answer sink for one upstream run, and what both must produce. */
module Handler {
  import opened Base
  import opened Events

  /** How the upstream event stream ended once no callback stopped it. */
  datatype End = Eof | SawDone | ReadFailed(message: string)

  datatype Failure = StreamFailed(error: Error) | Incomplete(sawDone: bool) | InvalidToolCall

  datatype Frame =
    | Content(role: bool, reasoning: bool, text: string)
    | ToolChunk(role: bool, index: nat, call: ToolCall)
    | FinishChunk(reason: Reason)
    | UsageChunk(usage: Usage)
    | ErrorFrame(failure: Failure)
    | DoneFrame

  /** What Record receives: prompt, completion, cache-read and cache-write tokens. */
  datatype Recorded = Recorded(prompt: int, completion: int, cacheRead: int, cacheWrite: int)

  datatype Answer =
    | Answer(content: string, reasoning: string, calls: seq<ToolCall>, reason: Reason, usage: Usage)
    | Rejected(failure: Failure)

  // ---------------------------------------------------------------- reading a run without running it

  /** The protocol error an event carries, whatever came before it. */
  function Fault(codec: Codec, ev: Event): Option<Error> {
    match ev.kind
    case ToolCallKind => (match ToolCallFromEvent(codec, ev) case Ok(_) => None case Err(e) => Some(e))
    case ToolInputStart => if EventToolCallId(ev) == "" then Some(MissingStartId) else None
    case ToolInputDelta => if EventToolCallId(ev) == "" then Some(MissingDeltaId) else None
    case FinishKind => (match FinishReasonOf(ev) case Ok(_) => None case Err(e) => Some(e))
    case ErrorKind => Some(UpstreamError(ev.error))
    case _ => None
  }

  predicate Stops(codec: Codec, ev: Event) {
    ev.kind == FinishKind || Fault(codec, ev).Some?
  }

  /** Number of events before the first finish or protocol error. */
  function Cut(codec: Codec, events: seq<Event>): (k: nat)
    ensures k <= |events|
    ensures forall i :: 0 <= i < k ==> !Stops(codec, events[i])
    ensures k < |events| ==> Stops(codec, events[k])
  {
    if events == [] || Stops(codec, events[0]) then 0 else 1 + Cut(codec, events[1..])
  }

  datatype Delta = Delta(reasoning: bool, text: string)

  /** The non-empty text and reasoning pieces, in order. */
  function Deltas(events: seq<Event>): seq<Delta> {
    if events == [] then [] else Deltas(events[..|events| - 1]) + DeltaOf(events[|events| - 1])
  }

  function DeltaOf(ev: Event): seq<Delta> {
    if ev.kind in {TextDelta, ReasoningDelta} && EventText(ev) != "" then [Delta(ev.kind == ReasoningDelta, EventText(ev))] else []
  }

  lemma DeltasNext(events: seq<Event>, ev: Event)
    ensures Deltas(events + [ev]) == Deltas(events) + DeltaOf(ev)
  {
  }

  lemma FinishHasNoDelta(events: seq<Event>, k: nat)
    requires k < |events| && events[k].kind == FinishKind
    ensures Deltas(events[..k + 1]) == Deltas(events[..k])
  {
    assert events[..k + 1] == events[..k] + [events[k]];
    DeltasNext(events[..k], events[k]);
    assert Deltas(events[..k]) + [] == Deltas(events[..k]);
  }

  /** Every well-formed tool-call event, repeats included. */
  function ValidCalls(codec: Codec, events: seq<Event>): (r: seq<ToolCall>)
    ensures forall i :: 0 <= i < |r| ==> ValidToolCall(codec, r[i]) && r[i].source == Authoritative && r[i].id != ""
  {
    if events == [] then [] else ValidCalls(codec, events[..|events| - 1]) + ValidCall(codec, events[|events| - 1])
  }

  function ValidCall(codec: Codec, ev: Event): (r: seq<ToolCall>)
    ensures forall i :: 0 <= i < |r| ==> ValidToolCall(codec, r[i]) && r[i].source == Authoritative && r[i].id != ""
  {
    if ev.kind == ToolCallKind && ToolCallFromEvent(codec, ev).Ok? then [ToolCallFromEvent(codec, ev).value] else []
  }

  lemma ValidCallsNext(codec: Codec, events: seq<Event>, ev: Event)
    ensures ValidCalls(codec, events + [ev]) == ValidCalls(codec, events) + ValidCall(codec, ev)
  {
  }

  function Calls(codec: Codec, events: seq<Event>): seq<ToolCall> {
    FirstPerId(ValidCalls(codec, events))
  }

  function LastUsage(events: seq<Event>): Option<CcUsage> {
    if events == [] then None
    else
      var last := events[|events| - 1];
      if last.kind == FinishStep && last.usage.Some? then last.usage else LastUsage(events[..|events| - 1])
  }

  /** The last usage report that counts: finish-step reports before the stop, then the finish's own total. */
  function FinalUsage(codec: Codec, events: seq<Event>): Option<CcUsage> {
    var k := Cut(codec, events);
    if k < |events| && Fault(codec, events[k]).None? then FinishUsage(events[..k], events[k]) else LastUsage(events[..k])
  }

  function UsageInfo(u: Option<CcUsage>): Usage {
    WithUsageIf(EMPTY_NORM, u).usage
  }

  function UsageRecord(u: Option<CcUsage>): Recorded {
    var n := WithUsageIf(EMPTY_NORM, u);
    Recorded(n.usage.prompt, n.usage.completion, n.cacheRead, n.cacheWrite)
  }

  function ResolveFinishReason(upstream: Reason, hasToolCalls: bool, truncated: bool): Reason {
    if truncated then Length
    else if upstream == ContentFilter then ContentFilter
    else if hasToolCalls then ToolCalls
    else upstream
  }

  function EndFailure(end: End): Failure {
    match end
    case Eof => Incomplete(false)
    case SawDone => Incomplete(true)
    case ReadFailed(m) => StreamFailed(ReadError(m))
  }

  /** The committed finish reason, or why the run fails. */
  function Verdict(codec: Codec, events: seq<Event>, end: End): Result<Reason, Failure> {
    var k := Cut(codec, events);
    if k == |events| then Err(EndFailure(end))
    else if Fault(codec, events[k]).Some? then Err(StreamFailed(Fault(codec, events[k]).value))
    else
      var reason := FinishReasonOf(events[k]).value;
      var calls := Calls(codec, events[..k]);
      if reason == ToolCalls && calls == [] then Err(StreamFailed(NoValidToolCalls))
      else Ok(ResolveFinishReason(reason, calls != [], reason == Length))
  }

  /** Content chunks; the first carries the assistant role when role holds. */
  function ContentFrames(deltas: seq<Delta>, role: bool): seq<Frame> {
    seq(|deltas|, i requires 0 <= i < |deltas| => Content(role && i == 0, deltas[i].reasoning, deltas[i].text))
  }

  function ToolFrames(calls: seq<ToolCall>, role: bool): seq<Frame> {
    seq(|calls|, i requires 0 <= i < |calls| => ToolChunk(role && i == 0, i, calls[i]))
  }

  /** The chunks of a committed run: its tool calls, the finish, usage on request, the terminator. */
  function CommitFrames(calls: seq<ToolCall>, role: bool, reason: Reason, usage: Usage, includeUsage: bool): seq<Frame> {
    ToolFrames(calls, role) + [FinishChunk(reason)] + (if includeUsage then [UsageChunk(usage)] else []) + [DoneFrame]
  }

  function Body(deltas: seq<Delta>, calls: seq<ToolCall>, verdict: Result<Reason, Failure>, usage: Usage, includeUsage: bool): seq<Frame> {
    ContentFrames(deltas, true)
    + match verdict
      case Err(failure) => [ErrorFrame(failure), DoneFrame]
      case Ok(reason) => CommitFrames(calls, deltas == [], reason, usage, includeUsage)
  }

  /** Everything a streamed run writes. */
  function StreamFrames(codec: Codec, events: seq<Event>, end: End, includeUsage: bool): seq<Frame> {
    var p := events[..Cut(codec, events)];
    Body(Deltas(p), Calls(codec, p), Verdict(codec, events, end), UsageInfo(FinalUsage(codec, events)), includeUsage)
  }

  // ---------------------------------------------------------------- the streaming sink

  ghost predicate NormMatches(codec: Codec, n: Norm, events: seq<Event>) {
    && !n.finished
    && n.kept == Calls(codec, events)
    && UsageMatches(n, LastUsage(events))
  }

  ghost predicate UsageMatches(n: Norm, u: Option<CcUsage>) {
    n.usage == UsageInfo(u) && Recorded(n.usage.prompt, n.usage.completion, n.cacheRead, n.cacheWrite) == UsageRecord(u)
  }

  lemma CallsAreValid(codec: Codec, events: seq<Event>)
    ensures Authoritatives(Calls(codec, events))
    ensures forall i :: 0 <= i < |Calls(codec, events)| ==> ValidToolCall(codec, Calls(codec, events)[i])
  {
    var all := ValidCalls(codec, events);
    FirstPerIdSubset(all);
    forall i | 0 <= i < |Calls(codec, events)|
      ensures ValidToolCall(codec, Calls(codec, events)[i]) && Authoritatives([Calls(codec, events)[i]])
    {
      assert Calls(codec, events)[i] in all;
    }
    forall i | 0 <= i < |Calls(codec, events)|
      ensures Calls(codec, events)[i].source == Authoritative && Calls(codec, events)[i].id != ""
    {
      assert Authoritatives([Calls(codec, events)[i]]);
      assert [Calls(codec, events)[i]][0] == Calls(codec, events)[i];
    }
  }

  lemma {:induction false} FirstPerIdSubset(calls: seq<ToolCall>)
    ensures forall c :: c in FirstPerId(calls) ==> c in calls
    ensures forall i, j :: 0 <= i < j < |FirstPerId(calls)| ==> FirstPerId(calls)[i].id != FirstPerId(calls)[j].id
  {
    if calls != [] {
      var init := calls[..|calls| - 1];
      FirstPerIdSubset(init);
      var r := FirstPerId(init);
      forall i | 0 <= i < |r| && !HasId(init, calls[|calls| - 1].id)
        ensures r[i].id != calls[|calls| - 1].id
      {
        assert HasId(r, r[i].id);
      }
    }
  }

  /** One event before the stop moves the normalizer exactly as the reference functions say. */
  lemma ConsumeStep(codec: Codec, n: Norm, events: seq<Event>, ev: Event)
    requires NormMatches(codec, n, events)
    ensures Fault(codec, ev).Some? ==> Consume(codec, n, ev) == (n, Err(Fault(codec, ev).value))
    ensures Fault(codec, ev).None? ==> Consume(codec, n, ev).1.Ok?
    ensures !Stops(codec, ev) ==> NormMatches(codec, Consume(codec, n, ev).0, events + [ev])
  {
    FaultStep(codec, n, ev);
    if ev.kind == ToolCallKind && ToolCallFromEvent(codec, ev).Ok? {
      ToolCallStep(codec, n, events, ev);
    } else if !Stops(codec, ev) {
      OtherStep(codec, n, events, ev);
    }
  }

  lemma OtherStep(codec: Codec, n: Norm, events: seq<Event>, ev: Event)
    requires NormMatches(codec, n, events) && ev.kind != ToolCallKind && ev.kind != FinishKind
    ensures NormMatches(codec, Consume(codec, n, ev).0, events + [ev])
  {
    PlainStep(codec, events, ev);
    KeepsCore(codec, n, ev);
  }

  /** Events that neither call nor finish leave the kept calls alone; only a finish-step changes usage. */
  lemma KeepsCore(codec: Codec, n: Norm, ev: Event)
    requires !n.finished && ev.kind != ToolCallKind && ev.kind != FinishKind
    ensures var n' := Consume(codec, n, ev).0;
            && !n'.finished && n'.kept == n.kept
            && if ev.kind == FinishStep && ev.usage.Some? then UsageMatches(n', ev.usage)
               else n'.usage == n.usage && n'.cacheRead == n.cacheRead && n'.cacheWrite == n.cacheWrite
  {
  }

  lemma FaultStep(codec: Codec, n: Norm, ev: Event)
    requires !n.finished
    ensures Fault(codec, ev).Some? ==> Consume(codec, n, ev) == (n, Err(Fault(codec, ev).value))
    ensures Fault(codec, ev).None? ==> Consume(codec, n, ev).1.Ok?
  {
  }

  lemma PlainStep(codec: Codec, events: seq<Event>, ev: Event)
    requires ev.kind != ToolCallKind
    ensures Calls(codec, events + [ev]) == Calls(codec, events)
    ensures LastUsage(events + [ev]) == if ev.kind == FinishStep && ev.usage.Some? then ev.usage else LastUsage(events)
  {
    var next := events + [ev];
    assert next[..|next| - 1] == events && next[|next| - 1] == ev;
    assert ValidCalls(codec, next) == ValidCalls(codec, events) + [];
    assert ValidCalls(codec, next) == ValidCalls(codec, events);
  }

  lemma ToolCallStep(codec: Codec, n: Norm, events: seq<Event>, ev: Event)
    requires NormMatches(codec, n, events) && ev.kind == ToolCallKind && ToolCallFromEvent(codec, ev).Ok?
    ensures NormMatches(codec, n.(kept := AddCall(n.kept, ToolCallFromEvent(codec, ev).value)), events + [ev])
  {
    assert (events + [ev])[..|events + [ev]| - 1] == events;
    var c := ToolCallFromEvent(codec, ev).value;
    CallsAreValid(codec, events);
    AddAuthoritative(n.kept, c);
    var all := ValidCalls(codec, events) + [c];
    assert all[..|all| - 1] == ValidCalls(codec, events);
  }

  /** The outputs of one event that does not commit the run. */
  predicate Plain(outs: seq<Out>) {
    |outs| <= 1 && (outs != [] ==> !outs[0].Call? && !outs[0].Finish?)
  }

  function PlainDeltas(outs: seq<Out>): seq<Delta> {
    if outs != [] && (outs[0].Text? || outs[0].Reasoning?) && outs[0].text != ""
    then [Delta(outs[0].Reasoning?, outs[0].text)] else []
  }

  /** The outputs of an accepted finish. */
  predicate IsCommit(outs: seq<Out>, calls: seq<ToolCall>) {
    && |outs| == |calls| + 1
    && outs[|calls|].Finish?
    && forall i :: 0 <= i < |calls| ==> outs[i] == Call(calls[i])
  }

  predicate Executable(codec: Codec, calls: seq<ToolCall>) {
    && Authoritatives(calls) && Unique(calls)
    && forall i :: 0 <= i < |calls| ==> ValidToolCall(codec, calls[i])
  }

  predicate Unique(calls: seq<ToolCall>) {
    forall i, j :: 0 <= i < j < |calls| ==> calls[i].id != calls[j].id
  }

  /** The closure state of handleStreamWithOptions: the body so far and its four flags. */
  datatype Writing = Writing(frames: seq<Frame>, firstText: bool, done: bool, finishing: bool, collected: seq<ToolCall>)

  function AfterPlain(w: Writing, outs: seq<Out>): Writing {
    if w.done then w
    else w.(frames := w.frames + ContentFrames(PlainDeltas(outs), w.firstText), firstText := w.firstText && PlainDeltas(outs) == [])
  }

  function FinishError(reason: Reason, calls: seq<ToolCall>): Option<Error> {
    if reason == ToolCalls && calls == [] then Some(NoValidToolCalls) else None
  }

  /** finishStream at its first call, with these calls collected. */
  function AfterFinish(w: Writing, calls: seq<ToolCall>, out: Out, includeUsage: bool): Writing
    requires out.Finish?
  {
    if FinishError(out.reason, calls).Some? then w.(collected := calls, finishing := true)
    else
      var reason := ResolveFinishReason(out.reason, calls != [], out.truncated);
      Writing(w.frames + CommitFrames(calls, w.firstText, reason, out.usage, includeUsage),
              w.firstText && calls == [], true, true, calls)
  }

  /** The closure state of handleStreamWithOptions; frames is the response body. */
  class StreamWriter {
    const includeUsage: bool
    var frames: seq<Frame>
    var firstText: bool
    var done: bool
    var finishing: bool
    var collected: seq<ToolCall>

    ghost function State(): Writing
      reads this
    {
      Writing(frames, firstText, done, finishing, collected)
    }

    constructor (includeUsage: bool)
      ensures this.includeUsage == includeUsage
      ensures frames == [] && firstText && !done && !finishing && collected == []
    {
      this.includeUsage := includeUsage;
      frames, firstText, done, finishing, collected := [], true, false, false, [];
    }

    method EmitContent(content: string, reasoning: bool)
      modifies this`frames, this`firstText
      ensures frames == old(frames) + if content == "" || done then [] else [Content(old(firstText), reasoning, content)]
      ensures firstText == (old(firstText) && (content == "" || done))
    {
      if content == "" || done {
        return;
      }
      frames := frames + [Content(firstText, reasoning, content)];
      firstText := false;
    }

    method CollectToolCall(codec: Codec, call: ToolCall) returns (err: Option<Error>)
      modifies this`collected
      ensures err == if ValidToolCall(codec, call) then None else Some(BadToolCall(call.id))
      ensures collected == if err.None? then AddCall(old(collected), call) else old(collected)
    {
      if !ValidToolCall(codec, call) {
        return Some(BadToolCall(call.id));
      }
      var added: bool;
      collected, added := DeduperAdd(collected, call);
      err := None;
    }

    method EmitCollectedToolCalls()
      modifies this`frames, this`firstText
      ensures frames == old(frames) + ToolFrames(collected, old(firstText))
      ensures firstText == (old(firstText) && collected == [])
    {
      for i := 0 to |collected|
        invariant firstText == (old(firstText) && i == 0)
        invariant frames == old(frames) + ToolFrames(collected, old(firstText))[..i]
      {
        frames := frames + [ToolChunk(firstText, i, collected[i])];
        firstText := false;
      }
    }

    /** finishStream: the commit point. */
    method FinishStream(reason: Reason, usage: Usage, truncated: bool) returns (err: Option<Error>)
      modifies this
      ensures old(done) || old(finishing) ==> err.None? && unchanged(this)
      ensures !old(done) && !old(finishing) ==>
        && err == FinishError(reason, old(collected))
        && State() == AfterFinish(old(State()), old(collected), Finish(reason, usage, truncated), includeUsage)
    {
      err := None;
      if done || finishing {
        return;
      }
      finishing := true;
      var hasToolCalls := |collected| > 0;
      if reason == ToolCalls && !hasToolCalls {
        return Some(NoValidToolCalls);
      }
      EmitCollectedToolCalls();
      ghost var before, tools := old(frames), ToolFrames(collected, old(firstText));
      var finish := ResolveFinishReason(reason, hasToolCalls, truncated);
      frames := frames + [FinishChunk(finish)];
      assert frames == before + (tools + [FinishChunk(finish)]);
      ghost var closing := tools + [FinishChunk(finish)] + (if includeUsage then [UsageChunk(usage)] else []);
      if includeUsage {
        frames := frames + [UsageChunk(usage)];
      }
      assert frames == before + closing;
      frames := frames + [DoneFrame];
      assert frames == before + (closing + [DoneFrame]);
      done := true;
    }

    method FailStream(failure: Failure)
      modifies this`frames, this`done
      ensures done
      ensures frames == old(frames) + if old(done) then [] else [ErrorFrame(failure), DoneFrame]
    {
      if done {
        return;
      }
      frames := frames + [ErrorFrame(failure)];
      frames := frames + [DoneFrame];
      done := true;
    }

    /** One normalized output. */
    method Handle(codec: Codec, out: Out) returns (err: Option<Error>)
      modifies this
      ensures !out.Call? && !out.Finish? ==> err.None? && State() == AfterPlain(old(State()), [out])
      ensures out.Call? ==>
        && err == (if ValidToolCall(codec, out.call) then None else Some(BadToolCall(out.call.id)))
        && State() == if err.None? then old(State()).(collected := AddCall(old(collected), out.call)) else old(State())
      ensures out.Finish? && !old(done) && !old(finishing) ==>
        && err == FinishError(out.reason, old(collected))
        && State() == AfterFinish(old(State()), old(collected), out, includeUsage)
    {
      err := None;
      match out {
        case Text(text) => EmitContent(text, false);
        case Reasoning(text) => EmitContent(text, true);
        case Call(call) => err := CollectToolCall(codec, call);
        case Finish(reason, usage, truncated) => err := FinishStream(reason, usage, truncated);
        case _ =>
      }
    }

    /** The loop over one event's outputs: at most one plain output, or the commit of calls. */
    method Deliver(codec: Codec, outs: seq<Out>, ghost calls: seq<ToolCall>) returns (err: Option<Error>)
      requires Plain(outs) || IsCommit(outs, calls)
      requires IsCommit(outs, calls) ==> !done && !finishing && collected == [] && Executable(codec, calls)
      modifies this
      ensures Plain(outs) ==> err.None? && State() == AfterPlain(old(State()), outs)
      ensures IsCommit(outs, calls) ==>
        && err == FinishError(outs[|calls|].reason, calls)
        && State() == AfterFinish(old(State()), calls, outs[|calls|], includeUsage)
    {
      err := None;
      ghost var w := State();
      assert AfterPlain(w, []).frames == w.frames;
      var i := 0;
      while i < |outs| && err.None?
        invariant i <= |outs|
        invariant Plain(outs) ==> err.None? && State() == if i == 0 then w else AfterPlain(w, outs)
        invariant IsCommit(outs, calls) && i <= |calls| ==> err.None? && State() == w.(collected := calls[..i])
        invariant IsCommit(outs, calls) && i > |calls| ==>
          err == FinishError(outs[|calls|].reason, calls) && State() == AfterFinish(w, calls, outs[|calls|], includeUsage)
      {
        if Plain(outs) {
          assert outs == [outs[0]];
        } else if i < |calls| {
          AddFresh(calls, i);
        } else {
          assert calls[..i] == calls;
        }
        err := Handle(codec, outs[i]);
        i := i + 1;
      }
    }
  }

  lemma AddFresh(calls: seq<ToolCall>, i: nat)
    requires i < |calls| && Unique(calls) && Authoritatives(calls)
    ensures AddCall(calls[..i], calls[i]) == calls[..i + 1]
  {
    assert [calls[i]][0] == calls[i];
    AddAuthoritative(calls[..i], calls[i]);
  }

  /** Before the stop: plain outputs that carry exactly the event's delta. */
  lemma OpenStep(codec: Codec, n: Norm, events: seq<Event>, ev: Event)
    requires NormMatches(codec, n, events) && !Stops(codec, ev)
    ensures Consume(codec, n, ev).1.Ok? && Plain(Consume(codec, n, ev).1.value)
    ensures Deltas(events + [ev]) == Deltas(events) + PlainDeltas(Consume(codec, n, ev).1.value)
  {
    ConsumeStep(codec, n, events, ev);
    PlainOuts(codec, n, ev);
    DeltasNext(events, ev);
  }

  /** Any event but an accepted finish: an error, or plain outputs that carry its delta. */
  lemma PlainOuts(codec: Codec, n: Norm, ev: Event)
    requires ev.kind == FinishKind ==> n.finished
    ensures var outs := Consume(codec, n, ev).1;
            && (outs.Err? <==> ev.kind != FinishKind && Fault(codec, ev).Some?)
            && (outs.Err? ==> Fault(codec, ev) == Some(outs.error))
            && (outs.Ok? ==> Plain(outs.value) && PlainDeltas(outs.value) == DeltaOf(ev))
  {
  }

  function FinishUsage(events: seq<Event>, finish: Event): Option<CcUsage> {
    if finish.totalUsage.Some? then finish.totalUsage else LastUsage(events)
  }

  function FinishOut(events: seq<Event>, finish: Event, reason: Reason): Out {
    Finish(reason, UsageInfo(FinishUsage(events, finish)), reason == Length)
  }

  /** At an accepted finish: every kept call, then the finish with the final usage. */
  lemma CommitStep(codec: Codec, n: Norm, events: seq<Event>, ev: Event, reason: Reason)
    requires NormMatches(codec, n, events) && ev.kind == FinishKind && FinishReasonOf(ev) == Ok(reason)
    ensures var (n', outs) := Consume(codec, n, ev);
            var calls := Calls(codec, events);
            && n'.finished && UsageMatches(n', FinishUsage(events, ev))
            && outs.Ok? && IsCommit(outs.value, calls) && outs.value[|calls|] == FinishOut(events, ev, reason)
  {
  }

  /** The reason of the accepted finish. */
  function AcceptedReason(codec: Codec, events: seq<Event>): Reason
    requires var k := Cut(codec, events); k < |events| && Fault(codec, events[k]).None?
  {
    FinishReasonOf(events[Cut(codec, events)]).value
  }

  /** The same at the accepted finish of a whole run. */
  lemma AcceptedFinish(codec: Codec, n: Norm, events: seq<Event>)
    requires var k := Cut(codec, events); k < |events| && Fault(codec, events[k]).None? && NormMatches(codec, n, events[..k])
    ensures var k := Cut(codec, events);
            var (n', outs) := Consume(codec, n, events[k]);
            var calls := Calls(codec, events[..k]);
            && n'.finished && UsageMatches(n', FinalUsage(codec, events))
            && outs.Ok? && IsCommit(outs.value, calls)
            && outs.value[|calls|] == FinishOut(events[..k], events[k], AcceptedReason(codec, events))
  {
    AtFinish(codec, events);
    CommitStep(codec, n, events[..Cut(codec, events)], events[Cut(codec, events)], AcceptedReason(codec, events));
  }

  lemma AtFinish(codec: Codec, events: seq<Event>)
    requires var k := Cut(codec, events); k < |events| && Fault(codec, events[k]).None?
    ensures var k := Cut(codec, events);
            && events[k].kind == FinishKind && FinishReasonOf(events[k]) == Ok(AcceptedReason(codec, events))
            && FinalUsage(codec, events) == FinishUsage(events[..k], events[k])
  {
  }

  lemma CallsAreUnique(codec: Codec, events: seq<Event>)
    ensures Executable(codec, Calls(codec, events))
  {
    CallsAreValid(codec, events);
    FirstPerIdSubset(ValidCalls(codec, events));
  }

  /** After a finish: usage is frozen and nothing commits again. */
  lemma ClosedStep(codec: Codec, n: Norm, ev: Event)
    requires n.finished
    ensures var (n', outs) := Consume(codec, n, ev);
            && n'.finished && n'.usage == n.usage && n'.cacheRead == n.cacheRead && n'.cacheWrite == n.cacheWrite
            && (outs.Ok? ==> Plain(outs.value))
  {
  }

  /** Where the streaming loop stands after i events: still open, committed, or stopped by an error. */
  ghost predicate Progress(codec: Codec, run: (seq<Event>, End, bool), i: nat, err: Option<Error>, n: Norm, w: Writing) {
    var (events, end, includeUsage) := run;
    var k := Cut(codec, events);
    && i <= |events|
    && if i <= k then
         && err.None? && NormMatches(codec, n, events[..i])
         && w == Writing(ContentFrames(Deltas(events[..i]), true), Deltas(events[..i]) == [], false, false, [])
       else Settled(codec, run, err, n, w)
  }

  ghost predicate Settled(codec: Codec, run: (seq<Event>, End, bool), err: Option<Error>, n: Norm, w: Writing) {
    var (events, end, includeUsage) := run;
    && UsageMatches(n, FinalUsage(codec, events))
    && if w.done then
         n.finished && Verdict(codec, events, end).Ok? && w.frames == StreamFrames(codec, events, end, includeUsage)
       else
         && err.Some? && Verdict(codec, events, end) == Err(StreamFailed(err.value))
         && w.frames == ContentFrames(Deltas(events[..Cut(codec, events)]), true)
  }

  lemma ContentSplit(a: seq<Delta>, b: seq<Delta>)
    ensures ContentFrames(a, true) + ContentFrames(b, a == []) == ContentFrames(a + b, true)
  {
  }

  /** One event, seen from the reference functions: every way it can go keeps the progress predicate. */
  lemma ProgressStep(codec: Codec, run: (seq<Event>, End, bool), i: nat, n: Norm, w: Writing)
    requires i < |run.0| && Progress(codec, run, i, None, n, w)
    ensures var (n', outs) := Consume(codec, n, run.0[i]);
            var calls := Calls(codec, run.0[..Cut(codec, run.0)]);
            match outs
            case Err(e) => Progress(codec, run, i + 1, Some(e), n', w)
            case Ok(o) =>
              && (Plain(o) || IsCommit(o, calls))
              && (Plain(o) ==> Progress(codec, run, i + 1, None, n', AfterPlain(w, o)))
              && (IsCommit(o, calls) ==>
                    && !w.done && !w.finishing && w.collected == []
                    && Progress(codec, run, i + 1, FinishError(o[|calls|].reason, calls), n', AfterFinish(w, calls, o[|calls|], run.2)))
  {
    var k := Cut(codec, run.0);
    if i < k {
      OpenProgress(codec, run, i, n, w);
    } else if i == k {
      if Fault(codec, run.0[k]).Some? {
        FaultProgress(codec, run, n, w);
      } else {
        FinishProgress(codec, run, n, w);
      }
    } else {
      ClosedStep(codec, n, run.0[i]);
    }
  }

  lemma FaultProgress(codec: Codec, run: (seq<Event>, End, bool), n: Norm, w: Writing)
    requires var k := Cut(codec, run.0); k < |run.0| && Progress(codec, run, k, None, n, w) && Fault(codec, run.0[k]).Some?
    ensures var fault := Fault(codec, run.0[Cut(codec, run.0)]);
            && Consume(codec, n, run.0[Cut(codec, run.0)]) == (n, Err(fault.value))
            && Settled(codec, run, fault, n, w)
  {
    var k := Cut(codec, run.0);
    ConsumeStep(codec, n, run.0[..k], run.0[k]);
    FaultSettles(codec, run, n, w);
  }

  lemma FinishProgress(codec: Codec, run: (seq<Event>, End, bool), n: Norm, w: Writing)
    requires var k := Cut(codec, run.0); k < |run.0| && Progress(codec, run, k, None, n, w) && Fault(codec, run.0[k]).None?
    ensures var k := Cut(codec, run.0);
            var (n', outs) := Consume(codec, n, run.0[k]);
            var calls := Calls(codec, run.0[..k]);
            && outs.Ok? && IsCommit(outs.value, calls)
            && Settled(codec, run, FinishError(outs.value[|calls|].reason, calls), n', AfterFinish(w, calls, outs.value[|calls|], run.2))
  {
    var k, reason := Cut(codec, run.0), AcceptedReason(codec, run.0);
    AcceptedFinish(codec, n, run.0);
    CommitProgress(codec, run, Consume(codec, n, run.0[k]).0, w, FinishOut(run.0[..k], run.0[k], reason));
  }

  lemma FaultSettles(codec: Codec, run: (seq<Event>, End, bool), n: Norm, w: Writing)
    requires var k := Cut(codec, run.0);
             && k < |run.0| && Fault(codec, run.0[k]).Some? && !w.done && UsageMatches(n, LastUsage(run.0[..k]))
             && w.frames == ContentFrames(Deltas(run.0[..k]), true)
    ensures Settled(codec, run, Fault(codec, run.0[Cut(codec, run.0)]), n, w)
  {
  }

  lemma CommitProgress(codec: Codec, run: (seq<Event>, End, bool), n': Norm, w: Writing, finish: Out)
    requires var k := Cut(codec, run.0);
             && k < |run.0| && Fault(codec, run.0[k]).None?
             && w == Writing(ContentFrames(Deltas(run.0[..k]), true), Deltas(run.0[..k]) == [], false, false, [])
             && finish == FinishOut(run.0[..k], run.0[k], FinishReasonOf(run.0[k]).value)
    requires n'.finished && UsageMatches(n', FinalUsage(codec, run.0))
    ensures var k := Cut(codec, run.0);
            var calls := Calls(codec, run.0[..k]);
            Settled(codec, run, FinishError(finish.reason, calls), n', AfterFinish(w, calls, finish, run.2))
  {
    CommitWriting(codec, run, w);
  }

  lemma CommitWriting(codec: Codec, run: (seq<Event>, End, bool), w: Writing)
    requires var k := Cut(codec, run.0);
             && k < |run.0| && Fault(codec, run.0[k]).None?
             && w == Writing(ContentFrames(Deltas(run.0[..k]), true), Deltas(run.0[..k]) == [], false, false, [])
    ensures var k := Cut(codec, run.0);
            var calls, reason := Calls(codec, run.0[..k]), AcceptedReason(codec, run.0);
            var w' := AfterFinish(w, calls, FinishOut(run.0[..k], run.0[k], reason), run.2);
            match FinishError(reason, calls)
            case None => w'.done && Verdict(codec, run.0, run.1).Ok? && w'.frames == StreamFrames(codec, run.0, run.1, run.2)
            case Some(e) => !w'.done && w'.frames == w.frames && Verdict(codec, run.0, run.1) == Err(StreamFailed(e))
  {
  }

  lemma OpenProgress(codec: Codec, run: (seq<Event>, End, bool), i: nat, n: Norm, w: Writing)
    requires i < Cut(codec, run.0) && Progress(codec, run, i, None, n, w)
    ensures var (n', outs) := Consume(codec, n, run.0[i]);
            outs.Ok? && Plain(outs.value) && Progress(codec, run, i + 1, None, n', AfterPlain(w, outs.value))
  {
    var events, ev := run.0, run.0[i];
    TakeNext(events, i);
    OpenStep(codec, n, events[..i], ev);
    ConsumeStep(codec, n, events[..i], ev);
    ContentSplit(Deltas(events[..i]), PlainDeltas(Consume(codec, n, ev).1.value));
  }

  /** The error the callback returns at the last of these events, none of the earlier ones having failed. */
  function CallbackError(codec: Codec, events: seq<Event>): Option<Error> {
    var k := Cut(codec, events);
    if k == |events| then None
    else
      var last := events[|events| - 1];
      if k < |events| - 1 then (if last.kind != FinishKind then Fault(codec, last) else None)
      else if Fault(codec, last).Some? then Fault(codec, last)
      else FinishError(FinishReasonOf(last).value, Calls(codec, events[..k]))
  }

  lemma {:induction false} CutOfPrefix(codec: Codec, events: seq<Event>, m: nat)
    requires m <= |events|
    ensures Cut(codec, events[..m]) == Min(Cut(codec, events), m)
  {
    if m > 0 && !Stops(codec, events[0]) {
      CutOfPrefix(codec, events[1..], m - 1);
      assert events[..m][1..] == events[1..][..m - 1];
    }
  }

  /** What an event comes to for the callback, at every point of the run. */
  lemma CallbackStep(codec: Codec, run: (seq<Event>, End, bool), i: nat, n: Norm, w: Writing)
    requires i < |run.0| && Progress(codec, run, i, None, n, w)
    ensures var outs := Consume(codec, n, run.0[i]).1;
            var calls := Calls(codec, run.0[..Cut(codec, run.0)]);
            CallbackError(codec, run.0[..i + 1]) ==
            match outs
            case Err(e) => Some(e)
            case Ok(o) => if IsCommit(o, calls) then FinishError(o[|calls|].reason, calls) else None
  {
    var k := Cut(codec, run.0);
    CallbackErrorAt(codec, run.0, i);
    if i < k {
      OpenProgress(codec, run, i, n, w);
    } else if i > k {
      PlainOuts(codec, n, run.0[i]);
    } else if Fault(codec, run.0[k]).Some? {
      FaultProgress(codec, run, n, w);
    } else {
      AcceptedFinish(codec, n, run.0);
    }
  }

  lemma CallbackErrorAt(codec: Codec, events: seq<Event>, i: nat)
    requires i < |events|
    ensures var k := Cut(codec, events);
            CallbackError(codec, events[..i + 1]) ==
            if i < k then None
            else if i > k then (if events[i].kind != FinishKind then Fault(codec, events[i]) else None)
            else if Fault(codec, events[k]).Some? then Fault(codec, events[k])
            else FinishError(AcceptedReason(codec, events), Calls(codec, events[..k]))
  {
    var k := Cut(codec, events);
    var seen := events[..i + 1];
    CutOfPrefix(codec, events, i + 1);
    assert seen[|seen| - 1] == events[i];
    if i == k {
      PrefixOfPrefix(events, i + 1, k);
    }
  }

  method OnEvent(codec: Codec, n: Normalizer, w: StreamWriter, ev: Event, ghost run: (seq<Event>, End, bool), ghost i: nat)
    returns (err: Option<Error>)
    requires n.Valid() && w.includeUsage == run.2
    requires i < |run.0| && ev == run.0[i] && Progress(codec, run, i, None, n.State(), w.State())
    modifies n, w
    ensures n.Valid() && Progress(codec, run, i + 1, err, n.State(), w.State())
    ensures err == CallbackError(codec, run.0[..i + 1])
  {
    ghost var k := Cut(codec, run.0);
    ProgressStep(codec, run, i, n.State(), w.State());
    CallbackStep(codec, run, i, n.State(), w.State());
    CallsAreUnique(codec, run.0[..k]);
    var outs := n.ConsumeEvent(codec, ev);
    if outs.Err? {
      err := Some(outs.error);
    } else {
      err := w.Deliver(codec, outs.value, Calls(codec, run.0[..k]));
    }
  }

  lemma RunIsOver(codec: Codec, run: (seq<Event>, End, bool), i: nat, err: Option<Error>, n: Norm, w: Writing)
    requires Progress(codec, run, i, err, n, w) && (i == |run.0| || err.Some?)
    ensures UsageMatches(n, FinalUsage(codec, run.0))
    ensures var failure := if err.Some? then StreamFailed(err.value) else EndFailure(run.1);
            StreamFrames(codec, run.0, run.1, run.2) == w.frames + if w.done then [] else [ErrorFrame(failure), DoneFrame]
  {
    if i <= Cut(codec, run.0) {
      assert run.0[..i] == run.0;
    }
  }

  method HandleStream(codec: Codec, events: seq<Event>, end: End, includeUsage: bool)
    returns (frames: seq<Frame>, recorded: Recorded)
    ensures frames == StreamFrames(codec, events, end, includeUsage)
    ensures recorded == UsageRecord(FinalUsage(codec, events))
  {
    var n := new Normalizer();
    var w := new StreamWriter(includeUsage);
    ghost var run := (events, end, includeUsage);
    var i, err := 0, None;
    while i < |events| && err.None?
      invariant n.Valid() && fresh(n) && fresh(w) && w.includeUsage == includeUsage
      invariant Progress(codec, run, i, err, n.State(), w.State())
    {
      err := OnEvent(codec, n, w, events[i], run, i);
      i := i + 1;
    }
    RunIsOver(codec, run, i, err, n.State(), w.State());
    if err.None? && end.ReadFailed? {
      err := Some(ReadError(end.message));
    }
    if err.Some? {
      w.FailStream(StreamFailed(err.value));
    } else if !w.done {
      w.FailStream(Incomplete(end.SawDone?));
    }
    frames := w.frames;
    recorded := Recorded(n.usage.prompt, n.usage.completion, n.cacheRead, n.cacheWrite);
  }

  // ---------------------------------------------------------------- the single-answer sink

  /** Concatenation of the text (or reasoning) pieces. */
  function Join(deltas: seq<Delta>, reasoning: bool): string {
    if deltas == [] then ""
    else
      var last := deltas[|deltas| - 1];
      Join(deltas[..|deltas| - 1], reasoning) + if last.reasoning == reasoning then last.text else ""
  }

  /** The first protocol error once a finish was accepted; later finish events are ignored. */
  function LateFault(codec: Codec, events: seq<Event>): Option<Error> {
    if events == [] then None
    else if events[0].kind != FinishKind && Fault(codec, events[0]).Some? then Fault(codec, events[0])
    else LateFault(codec, events[1..])
  }

  /** What a non-streamed run answers. */
  function NonStreamAnswer(codec: Codec, events: seq<Event>, end: End): Answer {
    var k := Cut(codec, events);
    if k == |events| then Rejected(EndFailure(end))
    else if Fault(codec, events[k]).Some? then Rejected(StreamFailed(Fault(codec, events[k]).value))
    else
      var late := LateFault(codec, events[k + 1..]);
      if late.Some? then Rejected(StreamFailed(late.value))
      else if end.ReadFailed? then Rejected(EndFailure(end))
      else
        var reason, calls := FinishReasonOf(events[k]).value, Calls(codec, events[..k]);
        if reason == ToolCalls && calls == [] then Rejected(InvalidToolCall)
        else
          Answer(Join(Deltas(events), false), Join(Deltas(events), true), calls,
                 ResolveFinishReason(reason, calls != [], reason == Length), UsageInfo(FinalUsage(codec, events)))
  }

  datatype Gathering = Gathering(text: string, reasoning: string, calls: seq<ToolCall>, finish: Option<Reason>, truncated: bool)

  function Pieces(deltas: seq<Delta>, calls: seq<ToolCall>, finish: Option<Reason>, truncated: bool): Gathering {
    Gathering(Join(deltas, false), Join(deltas, true), calls, finish, truncated)
  }

  lemma JoinPlain(out: Out, reasoning: bool)
    requires !out.Call? && !out.Finish?
    ensures Join(PlainDeltas([out]), reasoning) ==
            if (out.Text? && !reasoning) || (out.Reasoning? && reasoning) then out.text else ""
  {
  }

  function AfterPieces(g: Gathering, deltas: seq<Delta>): Gathering {
    g.(text := g.text + Join(deltas, false), reasoning := g.reasoning + Join(deltas, true))
  }

  /** The closure state of handleNonStream. */
  class Collector {
    var textContent: string
    var reasoningContent: string
    var toolCalls: seq<ToolCall>
    var finishReason: Option<Reason>
    var truncated: bool

    ghost function State(): Gathering
      reads this
    {
      Gathering(textContent, reasoningContent, toolCalls, finishReason, truncated)
    }

    constructor ()
      ensures State() == Gathering("", "", [], None, false)
    {
      textContent, reasoningContent, toolCalls, finishReason, truncated := "", "", [], None, false;
    }

    method Handle(codec: Codec, out: Out) returns (err: Option<Error>)
      modifies this
      ensures !out.Call? && !out.Finish? ==> err.None? && State() == AfterPieces(old(State()), PlainDeltas([out]))
      ensures out.Call? ==>
        && err == (if ValidToolCall(codec, out.call) then None else Some(BadToolCall(out.call.id)))
        && State() == if err.None? then old(State()).(calls := AddCall(old(toolCalls), out.call)) else old(State())
      ensures out.Finish? ==> err.None? && State() == old(State()).(finish := Some(out.reason), truncated := out.truncated)
    {
      err := None;
      if !out.Call? && !out.Finish? {
        JoinPlain(out, false);
        JoinPlain(out, true);
      }
      assert textContent + "" == textContent && reasoningContent + "" == reasoningContent;
      match out {
        case Text(text) => textContent := textContent + text;
        case Reasoning(text) => reasoningContent := reasoningContent + text;
        case Call(call) =>
          if !ValidToolCall(codec, call) {
            return Some(BadToolCall(call.id));
          }
          var added: bool;
          toolCalls, added := DeduperAdd(toolCalls, call);
        case Finish(reason, usage, isTruncated) => finishReason, truncated := Some(reason), isTruncated;
        case _ =>
      }
    }

    method Deliver(codec: Codec, outs: seq<Out>, ghost calls: seq<ToolCall>) returns (err: Option<Error>)
      requires Plain(outs) || IsCommit(outs, calls)
      requires IsCommit(outs, calls) ==> toolCalls == [] && Executable(codec, calls)
      modifies this
      ensures err.None?
      ensures Plain(outs) ==> State() == AfterPieces(old(State()), PlainDeltas(outs))
      ensures IsCommit(outs, calls) ==>
        State() == old(State()).(calls := calls, finish := Some(outs[|calls|].reason), truncated := outs[|calls|].truncated)
    {
      err := None;
      ghost var g := State();
      var i := 0;
      while i < |outs| && err.None?
        invariant i <= |outs| && err.None?
        invariant Plain(outs) ==> State() == if i == 0 then g else AfterPieces(g, PlainDeltas(outs))
        invariant IsCommit(outs, calls) && i <= |calls| ==> State() == g.(calls := calls[..i])
        invariant IsCommit(outs, calls) && i > |calls| ==>
          State() == g.(calls := calls, finish := Some(outs[|calls|].reason), truncated := outs[|calls|].truncated)
      {
        if Plain(outs) {
          assert outs == [outs[0]];
        } else if i < |calls| {
          AddFresh(calls, i);
        } else {
          assert calls[..i] == calls;
        }
        err := Handle(codec, outs[i]);
        i := i + 1;
      }
    }
  }

  /** Where the non-streaming loop stands after i events. */
  ghost predicate Gathered(codec: Codec, events: seq<Event>, i: nat, err: Option<Error>, n: Norm, g: Gathering) {
    var k := Cut(codec, events);
    && i <= |events|
    && if i <= k then
         && err.None? && NormMatches(codec, n, events[..i])
         && g == Pieces(Deltas(events[..i]), [], None, false)
       else if Fault(codec, events[k]).Some? then
         err == Fault(codec, events[k])
       else
         n.finished && UsageMatches(n, FinalUsage(codec, events)) && Late(codec, events, i, err, g)
  }

  /** The same after the accepted finish. */
  ghost predicate Late(codec: Codec, events: seq<Event>, i: nat, err: Option<Error>, g: Gathering)
    requires var k := Cut(codec, events); k < i <= |events| && Fault(codec, events[k]).None?
  {
    var k, reason := Cut(codec, events), AcceptedReason(codec, events);
    if err.Some? then LateFault(codec, events[k + 1..]) == err
    else
      && LateFault(codec, events[k + 1..]) == LateFault(codec, events[i..])
      && g == Pieces(Deltas(events[..i]), Calls(codec, events[..k]), Some(reason), reason == Length)
  }

  lemma {:induction false} JoinAppend(a: seq<Delta>, b: seq<Delta>, reasoning: bool)
    ensures Join(a + b, reasoning) == Join(a, reasoning) + Join(b, reasoning)
  {
    if b == [] {
      assert a + b == a;
    } else {
      var init, last := b[..|b| - 1], b[|b| - 1];
      JoinAppend(a, init, reasoning);
      LastApart(a, b);
      JoinNext(a + init, last, reasoning);
      Assoc(Join(a, reasoning), Join(init, reasoning), if last.reasoning == reasoning then last.text else "");
    }
  }

  lemma JoinNext(deltas: seq<Delta>, d: Delta, reasoning: bool)
    ensures Join(deltas + [d], reasoning) == Join(deltas, reasoning) + if d.reasoning == reasoning then d.text else ""
  {
  }

  lemma PiecesStep(a: seq<Delta>, b: seq<Delta>, calls: seq<ToolCall>, finish: Option<Reason>, truncated: bool)
    ensures AfterPieces(Pieces(a, calls, finish, truncated), b) == Pieces(a + b, calls, finish, truncated)
  {
    JoinAppend(a, b, false);
    JoinAppend(a, b, true);
  }

  lemma GatherOpen(codec: Codec, events: seq<Event>, i: nat, n: Norm, g: Gathering)
    requires i < Cut(codec, events) && Gathered(codec, events, i, None, n, g)
    ensures var (n', outs) := Consume(codec, n, events[i]);
            && outs.Ok? && Plain(outs.value)
            && Gathered(codec, events, i + 1, None, n', AfterPieces(g, PlainDeltas(outs.value)))
  {
    TakeNext(events, i);
    OpenStep(codec, n, events[..i], events[i]);
    ConsumeStep(codec, n, events[..i], events[i]);
    PiecesStep(Deltas(events[..i]), PlainDeltas(Consume(codec, n, events[i]).1.value), [], None, false);
  }

  lemma GatherCommit(codec: Codec, events: seq<Event>, n': Norm, g: Gathering, finish: Out)
    requires var k := Cut(codec, events);
             && k < |events| && Fault(codec, events[k]).None?
             && g == Pieces(Deltas(events[..k]), [], None, false)
             && finish == FinishOut(events[..k], events[k], AcceptedReason(codec, events))
    requires n'.finished && UsageMatches(n', FinalUsage(codec, events))
    ensures var k := Cut(codec, events);
            Gathered(codec, events, k + 1, None, n', AfterCommit(g, Calls(codec, events[..k]), finish))
  {
    var k, reason := Cut(codec, events), AcceptedReason(codec, events);
    FinishHasNoDelta(events, k);
    PiecesFilled(g, Deltas(events[..k]), Calls(codec, events[..k]), Some(reason), reason == Length);
  }

  function AfterCommit(g: Gathering, calls: seq<ToolCall>, out: Out): Gathering
    requires out.Finish?
  {
    g.(calls := calls, finish := Some(out.reason), truncated := out.truncated)
  }

  lemma PiecesFilled(g: Gathering, deltas: seq<Delta>, calls: seq<ToolCall>, finish: Option<Reason>, truncated: bool)
    requires g == Pieces(deltas, [], None, false)
    ensures g.(calls := calls, finish := finish, truncated := truncated) == Pieces(deltas, calls, finish, truncated)
  {
  }

  lemma LateDeltas(codec: Codec, n: Norm, events: seq<Event>, ev: Event)
    requires n.finished
    ensures var outs := Consume(codec, n, ev).1;
            && (outs.Err? <==> ev.kind != FinishKind && Fault(codec, ev).Some?)
            && (outs.Err? ==> Fault(codec, ev) == Some(outs.error))
            && (outs.Ok? ==> Plain(outs.value) && Deltas(events + [ev]) == Deltas(events) + PlainDeltas(outs.value))
  {
    PlainOuts(codec, n, ev);
    DeltasNext(events, ev);
  }

  lemma GatherLate(codec: Codec, events: seq<Event>, i: nat, n: Norm, g: Gathering)
    requires Cut(codec, events) < i < |events| && Gathered(codec, events, i, None, n, g)
    ensures var (n', outs) := Consume(codec, n, events[i]);
            match outs
            case Err(e) => Gathered(codec, events, i + 1, Some(e), n', g)
            case Ok(o) => Plain(o) && Gathered(codec, events, i + 1, None, n', AfterPieces(g, PlainDeltas(o)))
  {
    var k := Cut(codec, events);
    ClosedStep(codec, n, events[i]);
    LateDeltas(codec, n, events[..i], events[i]);
    LateStep(codec, events, i, Consume(codec, n, events[i]).1, g);
  }

  lemma LateFaultNext(codec: Codec, events: seq<Event>, i: nat)
    requires i < |events|
    ensures LateFault(codec, events[i..]) ==
            if events[i].kind != FinishKind && Fault(codec, events[i]).Some? then Fault(codec, events[i])
            else LateFault(codec, events[i + 1..])
  {
  }

  lemma LateStep(codec: Codec, events: seq<Event>, i: nat, outs: Result<seq<Out>, Error>, g: Gathering)
    requires var k := Cut(codec, events); k < i < |events| && Fault(codec, events[k]).None?
    requires Late(codec, events, i, None, g)
    requires outs.Err? <==> events[i].kind != FinishKind && Fault(codec, events[i]).Some?
    requires outs.Err? ==> Fault(codec, events[i]) == Some(outs.error)
    requires outs.Ok? ==> Deltas(events[..i] + [events[i]]) == Deltas(events[..i]) + PlainDeltas(outs.value)
    ensures match outs
            case Err(e) => Late(codec, events, i + 1, Some(e), g)
            case Ok(o) => Late(codec, events, i + 1, None, AfterPieces(g, PlainDeltas(o)))
  {
    LateFaultNext(codec, events, i);
    if outs.Ok? {
      var k, reason := Cut(codec, events), AcceptedReason(codec, events);
      TakeNext(events, i);
      PiecesStep(Deltas(events[..i]), PlainDeltas(outs.value), Calls(codec, events[..k]), Some(reason), reason == Length);
    }
  }

  /** Every way one event can go keeps the gathering predicate. */
  ghost predicate Goes(codec: Codec, events: seq<Event>, i: nat, n': Norm, outs: Result<seq<Out>, Error>, g: Gathering) {
    var calls := Calls(codec, events[..Cut(codec, events)]);
    match outs
    case Err(e) => Gathered(codec, events, i + 1, Some(e), n', g)
    case Ok(o) =>
      && (Plain(o) || IsCommit(o, calls))
      && (Plain(o) ==> Gathered(codec, events, i + 1, None, n', AfterPieces(g, PlainDeltas(o))))
      && (IsCommit(o, calls) ==>
            g.calls == [] && Gathered(codec, events, i + 1, None, n', AfterCommit(g, calls, o[|calls|])))
  }

  lemma PlainGoes(codec: Codec, events: seq<Event>, i: nat, n': Norm, o: seq<Out>, g: Gathering)
    requires Plain(o) && Gathered(codec, events, i + 1, None, n', AfterPieces(g, PlainDeltas(o)))
    ensures Goes(codec, events, i, n', Ok(o), g)
  {
  }

  lemma CommitGoes(codec: Codec, events: seq<Event>, i: nat, n': Norm, o: seq<Out>, g: Gathering)
    requires var calls := Calls(codec, events[..Cut(codec, events)]);
             IsCommit(o, calls) && g.calls == [] && Gathered(codec, events, i + 1, None, n', AfterCommit(g, calls, o[|calls|]))
    ensures Goes(codec, events, i, n', Ok(o), g)
  {
  }

  lemma GatherStep(codec: Codec, events: seq<Event>, i: nat, n: Norm, g: Gathering)
    requires i < |events| && Gathered(codec, events, i, None, n, g)
    ensures Goes(codec, events, i, Consume(codec, n, events[i]).0, Consume(codec, n, events[i]).1, g)
  {
    if i < Cut(codec, events) {
      OpenGoes(codec, events, i, n, g);
    } else if i > Cut(codec, events) {
      LateGoes(codec, events, i, n, g);
    } else {
      StopGoes(codec, events, n, g);
    }
  }

  lemma OpenGoes(codec: Codec, events: seq<Event>, i: nat, n: Norm, g: Gathering)
    requires i < Cut(codec, events) && Gathered(codec, events, i, None, n, g)
    ensures Goes(codec, events, i, Consume(codec, n, events[i]).0, Consume(codec, n, events[i]).1, g)
  {
    GatherOpen(codec, events, i, n, g);
    PlainGoes(codec, events, i, Consume(codec, n, events[i]).0, Consume(codec, n, events[i]).1.value, g);
  }

  lemma LateGoes(codec: Codec, events: seq<Event>, i: nat, n: Norm, g: Gathering)
    requires Cut(codec, events) < i < |events| && Gathered(codec, events, i, None, n, g)
    ensures Goes(codec, events, i, Consume(codec, n, events[i]).0, Consume(codec, n, events[i]).1, g)
  {
    GatherLate(codec, events, i, n, g);
    if Consume(codec, n, events[i]).1.Ok? {
      PlainGoes(codec, events, i, Consume(codec, n, events[i]).0, Consume(codec, n, events[i]).1.value, g);
    }
  }

  lemma StopGoes(codec: Codec, events: seq<Event>, n: Norm, g: Gathering)
    requires var k := Cut(codec, events); k < |events| && Gathered(codec, events, k, None, n, g)
    ensures var k := Cut(codec, events); Goes(codec, events, k, Consume(codec, n, events[k]).0, Consume(codec, n, events[k]).1, g)
  {
    var k := Cut(codec, events);
    if Fault(codec, events[k]).None? {
      GatherFinish(codec, events, n, g);
      CommitGoes(codec, events, k, Consume(codec, n, events[k]).0, Consume(codec, n, events[k]).1.value, g);
    } else {
      ConsumeStep(codec, n, events[..k], events[k]);
    }
  }

  lemma GatherFinish(codec: Codec, events: seq<Event>, n: Norm, g: Gathering)
    requires var k := Cut(codec, events); k < |events| && Fault(codec, events[k]).None? && Gathered(codec, events, k, None, n, g)
    ensures var k := Cut(codec, events);
            var (n', outs) := Consume(codec, n, events[k]);
            var calls := Calls(codec, events[..k]);
            && outs.Ok? && IsCommit(outs.value, calls) && g.calls == []
            && Gathered(codec, events, k + 1, None, n', AfterCommit(g, calls, outs.value[|calls|]))
  {
    var k, reason := Cut(codec, events), AcceptedReason(codec, events);
    AcceptedFinish(codec, n, events);
    GatherCommit(codec, events, Consume(codec, n, events[k]).0, g, FinishOut(events[..k], events[k], reason));
  }

  /** The error the single-answer callback returns at the last of these events; a finish without calls is none here. */
  function AnswerError(codec: Codec, events: seq<Event>): Option<Error> {
    var k := Cut(codec, events);
    if k == |events| || (k < |events| - 1 && events[|events| - 1].kind == FinishKind) then None
    else Fault(codec, events[|events| - 1])
  }

  lemma AnswerErrorAt(codec: Codec, events: seq<Event>, i: nat)
    requires i < |events|
    ensures var k := Cut(codec, events);
            AnswerError(codec, events[..i + 1]) ==
            if i < k || (i > k && events[i].kind == FinishKind) then None else Fault(codec, events[i])
  {
    var seen := events[..i + 1];
    CutOfPrefix(codec, events, i + 1);
    assert seen[|seen| - 1] == events[i];
  }

  lemma AnswerStep(codec: Codec, events: seq<Event>, i: nat, n: Norm, g: Gathering)
    requires i < |events| && Gathered(codec, events, i, None, n, g)
    ensures var outs := Consume(codec, n, events[i]).1;
            AnswerError(codec, events[..i + 1]) == if outs.Err? then Some(outs.error) else None
  {
    var k := Cut(codec, events);
    AnswerErrorAt(codec, events, i);
    if i <= k {
      ConsumeStep(codec, n, events[..i], events[i]);
    } else {
      PlainOuts(codec, n, events[i]);
    }
  }

  method GatherEvent(codec: Codec, n: Normalizer, c: Collector, ev: Event, ghost events: seq<Event>, ghost i: nat)
    returns (err: Option<Error>)
    requires n.Valid() && i < |events| && ev == events[i] && Gathered(codec, events, i, None, n.State(), c.State())
    modifies n, c
    ensures n.Valid() && Gathered(codec, events, i + 1, err, n.State(), c.State())
    ensures err == AnswerError(codec, events[..i + 1])
  {
    ghost var k := Cut(codec, events);
    GatherStep(codec, events, i, n.State(), c.State());
    AnswerStep(codec, events, i, n.State(), c.State());
    CallsAreUnique(codec, events[..k]);
    var outs := n.ConsumeEvent(codec, ev);
    if outs.Err? {
      err := Some(outs.error);
    } else {
      err := c.Deliver(codec, outs.value, Calls(codec, events[..k]));
    }
  }

  lemma GatherIsOver(codec: Codec, events: seq<Event>, end: End, i: nat, err: Option<Error>, n: Norm, g: Gathering)
    requires Gathered(codec, events, i, err, n, g) && (i == |events| || err.Some?)
    ensures NonStreamAnswer(codec, events, end) ==
            if err.Some? then Rejected(StreamFailed(err.value))
            else if end.ReadFailed? || !n.finished then Rejected(EndFailure(end))
            else if g.finish == Some(ToolCalls) && g.calls == [] then Rejected(InvalidToolCall)
            else Answer(g.text, g.reasoning, g.calls,
                        ResolveFinishReason(if g.finish.Some? then g.finish.value else Stop, g.calls != [], g.truncated), n.usage)
    ensures err.None? && n.finished ==> g.finish.Some? && UsageMatches(n, FinalUsage(codec, events))
  {
    var k := Cut(codec, events);
    if k < i && Fault(codec, events[k]).None? {
      LateIsOver(codec, events, i, err, g);
    }
  }

  lemma LateIsOver(codec: Codec, events: seq<Event>, i: nat, err: Option<Error>, g: Gathering)
    requires var k := Cut(codec, events); k < i <= |events| && Fault(codec, events[k]).None?
    requires Late(codec, events, i, err, g) && (i == |events| || err.Some?)
    ensures LateFault(codec, events[Cut(codec, events) + 1..]) == err
    ensures err.None? ==>
              var reason := AcceptedReason(codec, events);
              g == Pieces(Deltas(events), Calls(codec, events[..Cut(codec, events)]), Some(reason), reason == Length)
  {
    if err.None? {
      assert events[..i] == events && events[i..] == [];
    }
  }

  /** handleNonStream. */
  method HandleNonStream(codec: Codec, events: seq<Event>, end: End) returns (answer: Answer, recorded: Option<Recorded>)
    ensures answer == NonStreamAnswer(codec, events, end)
    ensures recorded == if answer.Answer? then Some(UsageRecord(FinalUsage(codec, events))) else None
  {
    var n := new Normalizer();
    var c := new Collector();
    var i, err := 0, None;
    while i < |events| && err.None?
      invariant n.Valid() && fresh(n) && fresh(c)
      invariant Gathered(codec, events, i, err, n.State(), c.State())
    {
      err := GatherEvent(codec, n, c, events[i], events, i);
      i := i + 1;
    }
    GatherIsOver(codec, events, end, i, err, n.State(), c.State());
    if err.None? && end.ReadFailed? {
      err := Some(ReadError(end.message));
    }
    if err.Some? {
      return Rejected(StreamFailed(err.value)), None;
    }
    if !n.finished {
      return Rejected(Incomplete(end.SawDone?)), None;
    }
    if c.finishReason == Some(ToolCalls) && |c.toolCalls| == 0 {
      return Rejected(InvalidToolCall), None;
    }
    var reason := ResolveFinishReason(c.finishReason.value, |c.toolCalls| > 0, c.truncated);
    recorded := Some(Recorded(n.usage.prompt, n.usage.completion, n.cacheRead, n.cacheWrite));
    answer := Answer(c.textContent, c.reasoningContent, c.toolCalls, reason, n.usage);
  }
}
