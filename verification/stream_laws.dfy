/** What the two sinks of handler.go promise their clients, for every upstream run. */
module StreamLaws {
  import opened Base
  import opened Events
  import opened Handler

  // ---------------------------------------------------------------- the shape of a streamed body

  predicate Ending(f: Frame) {
    f.FinishChunk? || f.ErrorFrame?
  }

  predicate CarriesRole(f: Frame) {
    (f.Content? || f.ToolChunk?) && f.role
  }

  /** Exactly one [DONE], last; exactly one finish chunk or error frame; the role once, on the first frame. */
  predicate WellClosed(f: seq<Frame>) {
    && f != []
    && (forall i :: 0 <= i < |f| ==> (f[i].DoneFrame? <==> i == |f| - 1))
    && (exists i :: 0 <= i < |f| && Ending(f[i]))
    && (forall i, j :: 0 <= i < j < |f| ==> !(Ending(f[i]) && Ending(f[j])))
    && (forall i :: 0 <= i < |f| && CarriesRole(f[i]) ==> i == 0)
    && (f[0].Content? || f[0].ToolChunk? ==> CarriesRole(f[0]))
  }

  lemma EveryStreamCloses(codec: Codec, events: seq<Event>, end: End, includeUsage: bool)
    ensures WellClosed(StreamFrames(codec, events, end, includeUsage))
  {
    var p := events[..Cut(codec, events)];
    BodyCloses(Deltas(p), Calls(codec, p), Verdict(codec, events, end), UsageInfo(FinalUsage(codec, events)), includeUsage);
  }

  lemma BodyCloses(deltas: seq<Delta>, calls: seq<ToolCall>, verdict: Result<Reason, Failure>, usage: Usage, includeUsage: bool)
    ensures WellClosed(Body(deltas, calls, verdict, usage, includeUsage))
  {
    var content := ContentFrames(deltas, true);
    match verdict
    case Err(failure) =>
      OpenThenTail(content, [ErrorFrame(failure), DoneFrame]);
    case Ok(reason) =>
      var tools := ToolFrames(calls, deltas == []);
      var usages := if includeUsage then [UsageChunk(usage)] else [];
      assert [FinishChunk(reason)] + usages + [DoneFrame] == if includeUsage then [FinishChunk(reason), UsageChunk(usage), DoneFrame] else [FinishChunk(reason), DoneFrame];
      OpenThenTail(content + tools, [FinishChunk(reason)] + usages + [DoneFrame]);
      CommitApart(content, tools, [FinishChunk(reason)], usages, [DoneFrame]);
  }

  lemma CommitApart(content: seq<Frame>, tools: seq<Frame>, a: seq<Frame>, b: seq<Frame>, c: seq<Frame>)
    ensures content + (tools + a + b + c) == (content + tools) + (a + b + c)
  {
  }

  /** Content and tool chunks, of which exactly the first carries the role. */
  predicate OpenFrames(f: seq<Frame>) {
    forall i :: 0 <= i < |f| ==> (f[i].Content? || f[i].ToolChunk?) && (f[i].role <==> i == 0)
  }

  /** One ending, and one [DONE] at the end. */
  predicate ClosingFrames(f: seq<Frame>) {
    && |f| >= 2 && Ending(f[0]) && f[|f| - 1].DoneFrame?
    && (forall i :: 0 < i < |f| - 1 ==> f[i].UsageChunk?)
  }

  lemma OpenThenTail(open: seq<Frame>, tail: seq<Frame>)
    requires OpenFrames(open) && ClosingFrames(tail)
    ensures WellClosed(open + tail)
  {
    var f := open + tail;
    assert forall i :: |open| <= i < |f| ==> f[i] == tail[i - |open|];
    assert Ending(f[|open|]);
  }

  // ---------------------------------------------------------------- the client's view

  /** What an OpenAI client holds after reading some frames. */
  datatype View = View(content: string, reasoning: string, calls: seq<(nat, ToolCall)>,
                       finish: Option<Reason>, usage: Option<Usage>, failure: Option<Failure>)

  const EMPTY_VIEW := View("", "", [], None, None, None)

  function See(v: View, f: Frame): View {
    match f
    case Content(_, reasoning, text) =>
      if reasoning then v.(reasoning := v.reasoning + text) else v.(content := v.content + text)
    case ToolChunk(_, index, call) => v.(calls := v.calls + [(index, call)])
    case FinishChunk(reason) => v.(finish := Some(reason))
    case UsageChunk(usage) => v.(usage := Some(usage))
    case ErrorFrame(failure) => v.(failure := Some(failure))
    case DoneFrame => v
  }

  function Read(frames: seq<Frame>): View {
    if frames == [] then EMPTY_VIEW else See(Read(frames[..|frames| - 1]), frames[|frames| - 1])
  }

  function Indexed(calls: seq<ToolCall>): seq<(nat, ToolCall)> {
    seq(|calls|, i requires 0 <= i < |calls| => (i, calls[i]))
  }

  lemma ReadNext(frames: seq<Frame>, f: Frame)
    ensures Read(frames + [f]) == See(Read(frames), f)
  {
  }

  lemma {:induction false} ReadContent(deltas: seq<Delta>)
    ensures Read(ContentFrames(deltas, true)) == EMPTY_VIEW.(content := Join(deltas, false), reasoning := Join(deltas, true))
  {
    if deltas != [] {
      var init, last := deltas[..|deltas| - 1], deltas[|deltas| - 1];
      ReadContent(init);
      var f := ContentFrames(deltas, true)[|init|];
      assert ContentFrames(deltas, true) == ContentFrames(init, true) + [f];
      ReadNext(ContentFrames(init, true), f);
      assert Join(init, !last.reasoning) + "" == Join(init, !last.reasoning);
    }
  }

  lemma {:induction false} ReadTools(before: seq<Frame>, calls: seq<ToolCall>, role: bool)
    requires Read(before).calls == []
    ensures Read(before + ToolFrames(calls, role)) == Read(before).(calls := Indexed(calls))
  {
    if calls == [] {
      assert before + ToolFrames(calls, role) == before;
    } else {
      var init := calls[..|calls| - 1];
      ReadTools(before, init, role);
      var f := ToolFrames(calls, role)[|init|];
      assert before + ToolFrames(calls, role) == before + ToolFrames(init, role) + [f];
      ReadNext(before + ToolFrames(init, role), f);
      assert Indexed(calls) == Indexed(init) + [(|init|, calls[|init|])];
    }
  }

  lemma ReadBody(deltas: seq<Delta>, calls: seq<ToolCall>, verdict: Result<Reason, Failure>, usage: Usage, includeUsage: bool)
    ensures var v := EMPTY_VIEW.(content := Join(deltas, false), reasoning := Join(deltas, true));
            Read(Body(deltas, calls, verdict, usage, includeUsage)) ==
            match verdict
            case Err(failure) => v.(failure := Some(failure))
            case Ok(reason) => v.(calls := Indexed(calls), finish := Some(reason), usage := if includeUsage then Some(usage) else None)
  {
    var body, content := Body(deltas, calls, verdict, usage, includeUsage), ContentFrames(deltas, true);
    ReadContent(deltas);
    match verdict
    case Err(failure) =>
      assert body == content + [ErrorFrame(failure)] + [DoneFrame];
      ReadNext(content, ErrorFrame(failure));
      ReadNext(content + [ErrorFrame(failure)], DoneFrame);
    case Ok(reason) => ReadCommit(content, calls, deltas == [], reason, usage, includeUsage);
  }

  lemma ReadCommit(before: seq<Frame>, calls: seq<ToolCall>, role: bool, reason: Reason, usage: Usage, includeUsage: bool)
    requires Read(before).calls == [] && Read(before).usage.None?
    ensures Read(before + CommitFrames(calls, role, reason, usage, includeUsage)) ==
            Read(before).(calls := Indexed(calls), finish := Some(reason), usage := if includeUsage then Some(usage) else None)
  {
    var body := before + CommitFrames(calls, role, reason, usage, includeUsage);
    ReadTools(before, calls, role);
    var tools := before + ToolFrames(calls, role);
    var finished := tools + [FinishChunk(reason)];
    ReadNext(tools, FinishChunk(reason));
    var all := if includeUsage then finished + [UsageChunk(usage)] else finished;
    ReadNext(finished, UsageChunk(usage));
    ReadNext(all, DoneFrame);
    assert body == all + [DoneFrame];
  }

  /** What a client reads from a streamed run: its calls are the first valid tool-call event per ID before
      the accepted finish, in order, indexed 0..n-1, and a failed run shows none of them. */
  lemma ReadStream(codec: Codec, events: seq<Event>, end: End, includeUsage: bool)
    ensures var p := events[..Cut(codec, events)];
            Read(StreamFrames(codec, events, end, includeUsage)) ==
            match Verdict(codec, events, end)
            case Err(failure) => View(Join(Deltas(p), false), Join(Deltas(p), true), [], None, None, Some(failure))
            case Ok(reason) =>
              View(Join(Deltas(p), false), Join(Deltas(p), true), Indexed(Calls(codec, p)), Some(reason),
                   if includeUsage then Some(UsageInfo(FinalUsage(codec, events))) else None, None)
  {
    var p := events[..Cut(codec, events)];
    ReadBody(Deltas(p), Calls(codec, p), Verdict(codec, events, end), UsageInfo(FinalUsage(codec, events)), includeUsage);
  }

  lemma FailureShows(codec: Codec, events: seq<Event>, end: End, includeUsage: bool)
    ensures Read(StreamFrames(codec, events, end, includeUsage)).failure ==
            match Verdict(codec, events, end) case Err(failure) => Some(failure) case Ok(_) => None
  {
    ReadStream(codec, events, end, includeUsage);
  }

  // ---------------------------------------------------------------- streamed and single answers agree

  /** After the accepted finish: no protocol or read error, and no more text. */
  predicate Quiet(codec: Codec, events: seq<Event>, end: End) {
    var k := Cut(codec, events);
    && k < |events|
    && LateFault(codec, events[k + 1..]).None?
    && !end.ReadFailed?
    && Deltas(events[k + 1..]) == []
  }

  lemma {:induction false} DeltasAppend(a: seq<Event>, b: seq<Event>)
    ensures Deltas(a + b) == Deltas(a) + Deltas(b)
  {
    if b == [] {
      assert a + b == a;
    } else {
      var init, last := b[..|b| - 1], b[|b| - 1];
      DeltasAppend(a, init);
      LastApart(a, b);
      DeltasNext(a + init, last);
      Assoc(Deltas(a), Deltas(init), DeltaOf(last));
    }
  }

  lemma {:induction false} DeltasHaveText(events: seq<Event>)
    ensures forall i :: 0 <= i < |Deltas(events)| ==> Deltas(events)[i].text != ""
  {
    if events != [] {
      DeltasHaveText(events[..|events| - 1]);
    }
  }

  lemma {:induction false} JoinIsVisible(deltas: seq<Delta>)
    requires forall i :: 0 <= i < |deltas| ==> deltas[i].text != ""
    ensures deltas != [] ==> Join(deltas, false) != "" || Join(deltas, true) != ""
  {
  }

  /** A run streamed to completion gives the same answer unstreamed exactly when it is quiet after its finish;
      and a run answered unstreamed always streams to completion. */
  lemma SinksAgree(codec: Codec, events: seq<Event>, end: End)
    ensures var v := Read(StreamFrames(codec, events, end, true));
            var answer := NonStreamAnswer(codec, events, end);
            && (answer.Answer? ==> v.finish.Some?)
            && (v.finish.Some? ==>
                  && v.usage.Some?
                  && (SameAnswer(v, answer) <==> Quiet(codec, events, end)))
  {
    if Verdict(codec, events, end).Ok? {
      CompletedSinksAgree(codec, events, end);
    } else {
      ReadStream(codec, events, end, true);
      Unstreamed(codec, events, end);
    }
  }

  lemma CompletedSinksAgree(codec: Codec, events: seq<Event>, end: End)
    requires Verdict(codec, events, end).Ok?
    ensures var v := Read(StreamFrames(codec, events, end, true));
            v.finish.Some? && v.usage.Some? && (SameAnswer(v, NonStreamAnswer(codec, events, end)) <==> Quiet(codec, events, end))
  {
    var k := Cut(codec, events);
    CompletedView(codec, events, end);
    Unstreamed(codec, events, end);
    TextAgrees(events, k);
    ViewsAgree(Deltas(events[..k]), Deltas(events), Calls(codec, events[..k]), Verdict(codec, events, end).value,
               UsageInfo(FinalUsage(codec, events)), LateFault(codec, events[k + 1..]).None? && !end.ReadFailed?,
               Deltas(events[k + 1..]) == [], Read(StreamFrames(codec, events, end, true)), NonStreamAnswer(codec, events, end));
  }

  lemma CompletedView(codec: Codec, events: seq<Event>, end: End)
    requires Verdict(codec, events, end).Ok?
    ensures var p := events[..Cut(codec, events)];
            Read(StreamFrames(codec, events, end, true)) ==
            View(Join(Deltas(p), false), Join(Deltas(p), true), Indexed(Calls(codec, p)), Some(Verdict(codec, events, end).value),
                 Some(UsageInfo(FinalUsage(codec, events))), None)
  {
    ReadStream(codec, events, end, true);
  }

  lemma ViewsAgree(before: seq<Delta>, all: seq<Delta>, calls: seq<ToolCall>, reason: Reason, usage: Usage,
                   clean: bool, silent: bool, v: View, answer: Answer)
    requires v == View(Join(before, false), Join(before, true), Indexed(calls), Some(reason), Some(usage), None)
    requires if clean then answer == Answer(Join(all, false), Join(all, true), calls, reason, usage) else answer.Rejected?
    requires Join(all, false) == Join(before, false) && Join(all, true) == Join(before, true) <==> silent
    ensures SameAnswer(v, answer) <==> clean && silent
  {
  }

  /** The single answer beside the verdict of the streamed run. */
  lemma Unstreamed(codec: Codec, events: seq<Event>, end: End)
    ensures var k, answer, verdict := Cut(codec, events), NonStreamAnswer(codec, events, end), Verdict(codec, events, end);
            && (verdict.Err? ==> answer.Rejected?)
            && (verdict.Ok? ==>
                  && k < |events| && Fault(codec, events[k]).None?
                  && if LateFault(codec, events[k + 1..]).None? && !end.ReadFailed?
                     then answer == Answer(Join(Deltas(events), false), Join(Deltas(events), true), Calls(codec, events[..k]),
                                           verdict.value, UsageInfo(FinalUsage(codec, events)))
                     else answer.Rejected?)
  {
  }

  lemma TextAgrees(events: seq<Event>, k: nat)
    requires k < |events| && events[k].kind == FinishKind
    ensures var p, all := Deltas(events[..k]), Deltas(events);
            Join(all, false) == Join(p, false) && Join(all, true) == Join(p, true) <==> Deltas(events[k + 1..]) == []
  {
    SplitAtFinish(events, k);
    JoinsAgree(Deltas(events[..k]), Deltas(events[k + 1..]), Deltas(events));
  }

  lemma JoinsAgree(before: seq<Delta>, after: seq<Delta>, all: seq<Delta>)
    requires all == before + after && forall i :: 0 <= i < |after| ==> after[i].text != ""
    ensures Join(all, false) == Join(before, false) && Join(all, true) == Join(before, true) <==> after == []
  {
    JoinIsVisible(after);
    JoinAppend(before, after, false);
    JoinAppend(before, after, true);
    AppendShows(Join(before, false), Join(after, false));
    AppendShows(Join(before, true), Join(after, true));
  }

  predicate SameAnswer(v: View, a: Answer) {
    && a.Answer?
    && a.content == v.content && a.reasoning == v.reasoning && Indexed(a.calls) == v.calls
    && v.finish == Some(a.reason) && v.usage == Some(a.usage) && v.failure.None?
  }

  lemma SplitAtFinish(events: seq<Event>, k: nat)
    requires k < |events| && events[k].kind == FinishKind
    ensures var after := Deltas(events[k + 1..]);
            && Deltas(events) == Deltas(events[..k]) + after
            && (forall i :: 0 <= i < |after| ==> after[i].text != "")
  {
    assert events == events[..k + 1] + events[k + 1..];
    DeltasAppend(events[..k + 1], events[k + 1..]);
    FinishHasNoDelta(events, k);
    DeltasHaveText(events[k + 1..]);
  }

  lemma AppendShows(a: string, b: string)
    ensures a + b == a <==> b == ""
  {
  }

  function FinishEvent(): Event {
    Event(FinishKind, "", "", "", "", "", None, None, None, "stop", "", None, None, "")
  }

  function TextEvent(text: string): Event {
    Event(TextDelta, "", "", text, "", "", None, None, None, "", "", None, None, "")
  }

  /** A run that is not quiet: the text after its finish is missing from the stream and present in the single answer. */
  lemma TextAfterFinishIsDropped(codec: Codec, text: string)
    requires text != ""
    ensures var events := [FinishEvent(), TextEvent(text)];
            var v, answer := Read(StreamFrames(codec, events, Eof, true)), NonStreamAnswer(codec, events, Eof);
            v.finish.Some? && v.content == "" && answer.Answer? && answer.content == text && !SameAnswer(v, answer)
  {
    StopIsAccepted(codec);
    LateText(codec, FinishEvent(), TextEvent(text));
  }

  lemma LateText(codec: Codec, finish: Event, late: Event)
    requires finish.kind == FinishKind && FinishReasonOf(finish) == Ok(Stop) && late.kind == TextDelta && EventText(late) != ""
    ensures var v, answer := Read(StreamFrames(codec, [finish, late], Eof, true)), NonStreamAnswer(codec, [finish, late], Eof);
            v.finish.Some? && v.content == "" && answer.Answer? && answer.content == EventText(late) && !SameAnswer(v, answer)
  {
    var events := [finish, late];
    LateTextReadings(codec, finish, late);
    CompletedView(codec, events, Eof);
    Unstreamed(codec, events, Eof);
  }

  lemma LateTextReadings(codec: Codec, finish: Event, late: Event)
    requires finish.kind == FinishKind && FinishReasonOf(finish) == Ok(Stop) && late.kind == TextDelta && EventText(late) != ""
    ensures var events := [finish, late];
            && Cut(codec, events) == 0 && Verdict(codec, events, Eof) == Ok(Stop) && LateFault(codec, events[1..]).None?
            && Join(Deltas(events[..0]), false) == "" && Join(Deltas(events), false) == EventText(late)
  {
    FinishFirst(codec, finish, [late]);
    LateTextOnly(finish, late);
    assert [finish] + [late] == [finish, late] && [finish, late][1..] == [late];
  }

  lemma FinishFirst(codec: Codec, finish: Event, rest: seq<Event>)
    requires finish.kind == FinishKind && FinishReasonOf(finish) == Ok(Stop)
    ensures Cut(codec, [finish] + rest) == 0 && Verdict(codec, [finish] + rest, Eof) == Ok(Stop)
  {
    var events := [finish] + rest;
    assert events[0] == finish && events[..0] == [];
    NoCalls(codec);
  }

  lemma NoCalls(codec: Codec)
    ensures Calls(codec, []) == []
  {
  }

  lemma LateTextOnly(finish: Event, late: Event)
    requires finish.kind == FinishKind && late.kind == TextDelta && EventText(late) != ""
    ensures Join(Deltas([finish] + [late]), false) == EventText(late)
  {
    assert [] + [finish] == [finish];
    DeltasNext([], finish);
    DeltasNext([finish], late);
    OneDelta(Delta(false, EventText(late)));
  }

  lemma OneDelta(d: Delta)
    requires !d.reasoning
    ensures Join(Deltas([]) + [d], false) == d.text
  {
    JoinNext([], d, false);
    assert Deltas([]) == [] && Join([], false) + d.text == d.text;
  }

  lemma StopIsAccepted(codec: Codec)
    ensures FinishReasonOf(FinishEvent()) == Ok(Stop) && Fault(codec, FinishEvent()).None?
  {
    assert TrimSpace("stop") == "stop";
  }

  /** With nothing but [DONE] or EOF after the finish, one sink succeeds exactly when the other does. */
  lemma SucceedTogether(codec: Codec, events: seq<Event>, end: End)
    requires Cut(codec, events) + 1 >= |events| && !end.ReadFailed?
    ensures NonStreamAnswer(codec, events, end).Answer? <==> Read(StreamFrames(codec, events, end, false)).finish.Some?
  {
    ReadStream(codec, events, end, false);
    ReadStream(codec, events, end, true);
    SinksAgree(codec, events, end);
  }

  // ---------------------------------------------------------------- provisional tool input never matters

  predicate Provisional(ev: Event) {
    ev.kind in {ToolInputStart, ToolInputDelta, ToolInputEnd, ToolInputAvailable, ToolError}
  }

  /** The run without its provisional events. */
  function Firm(events: seq<Event>): seq<Event> {
    if events == [] then []
    else if Provisional(events[0]) then Firm(events[1..])
    else [events[0]] + Firm(events[1..])
  }

  predicate Unnamed(ev: Event) {
    ev.kind in {ToolInputStart, ToolInputDelta} && EventToolCallId(ev) == ""
  }

  predicate BlamesMissingId(fault: Option<Error>) {
    fault == Some(MissingStartId) || fault == Some(MissingDeltaId)
  }

  lemma FaultBlame(codec: Codec, ev: Event)
    ensures Unnamed(ev) <==> BlamesMissingId(Fault(codec, ev))
    ensures Provisional(ev) && Fault(codec, ev).Some? ==> Unnamed(ev)
  {
  }

  lemma {:induction false} CallsAppend(codec: Codec, a: seq<Event>, b: seq<Event>)
    ensures ValidCalls(codec, a + b) == ValidCalls(codec, a) + ValidCalls(codec, b)
  {
    if b == [] {
      assert a + b == a;
    } else {
      var init, last := b[..|b| - 1], b[|b| - 1];
      CallsAppend(codec, a, init);
      LastApart(a, b);
      ValidCallsNext(codec, a + init, last);
      Assoc(ValidCalls(codec, a), ValidCalls(codec, init), ValidCall(codec, last));
    }
  }

  lemma {:induction false} UsageAppend(a: seq<Event>, b: seq<Event>)
    ensures LastUsage(a + b) == if LastUsage(b).Some? then LastUsage(b) else LastUsage(a)
  {
    if b == [] {
      assert a + b == a;
    } else {
      UsageAppend(a, b[..|b| - 1]);
      assert (a + b)[..|a + b| - 1] == a + b[..|b| - 1];
    }
  }

  lemma {:induction false} FirmReadings(codec: Codec, events: seq<Event>)
    ensures Deltas(Firm(events)) == Deltas(events)
    ensures ValidCalls(codec, Firm(events)) == ValidCalls(codec, events)
    ensures LastUsage(Firm(events)) == LastUsage(events)
  {
    if events != [] {
      var ev, rest := events[0], events[1..];
      assert events == [ev] + rest;
      FirmReadings(codec, rest);
      FirstApart(codec, ev, rest);
      if Provisional(ev) {
        ProvisionalReadsNothing(codec, ev);
      } else {
        FirstApart(codec, ev, Firm(rest));
      }
    }
  }

  lemma FirstApart(codec: Codec, ev: Event, rest: seq<Event>)
    ensures Deltas([ev] + rest) == Deltas([ev]) + Deltas(rest)
    ensures ValidCalls(codec, [ev] + rest) == ValidCalls(codec, [ev]) + ValidCalls(codec, rest)
    ensures LastUsage([ev] + rest) == if LastUsage(rest).Some? then LastUsage(rest) else LastUsage([ev])
  {
    DeltasAppend([ev], rest);
    CallsAppend(codec, [ev], rest);
    UsageAppend([ev], rest);
  }

  lemma ProvisionalReadsNothing(codec: Codec, ev: Event)
    requires Provisional(ev)
    ensures Deltas([ev]) == [] && ValidCalls(codec, [ev]) == [] && LastUsage([ev]) == None
  {
  }

  /** Dropping provisional events keeps the event that stops the run, unless that event is an unnamed one. */
  lemma {:induction false} FirmCut(codec: Codec, events: seq<Event>)
    requires !StoppedByUnnamed(codec, events)
    ensures FirmSplits(codec, events)
  {
    if events != [] {
      var k, rest := Cut(codec, events), events[1..];
      FaultBlame(codec, events[0]);
      if Stops(codec, events[0]) {
        assert events[..0] == [] && Firm(events)[..0] == [];
        assert Firm(events)[1..] == Firm(rest);
      } else {
        assert k < |events| ==> events[k] == rest[k - 1];
        FirmCut(codec, rest);
        FirmSplitsCons(codec, events);
      }
    }
  }

  ghost predicate FirmSplits(codec: Codec, events: seq<Event>) {
    var k, k' := Cut(codec, events), Cut(codec, Firm(events));
    && Firm(events)[..k'] == Firm(events[..k])
    && (k' < |Firm(events)| <==> k < |events|)
    && (k < |events| ==> Firm(events)[k'] == events[k] && Firm(events)[k' + 1..] == Firm(events[k + 1..]))
  }

  lemma FirmSplitsCons(codec: Codec, events: seq<Event>)
    requires events != [] && !Stops(codec, events[0]) && FirmSplits(codec, events[1..])
    ensures FirmSplits(codec, events)
  {
    var k, rest := Cut(codec, events), events[1..];
    assert events[..k][1..] == rest[..k - 1];
    assert k < |events| ==> events[k] == rest[k - 1] && events[k + 1..] == rest[k..];
    if !Provisional(events[0]) {
      assert Firm(events) == [events[0]] + Firm(rest);
      FirmConsSplits(codec, events[0], Firm(rest));
    }
  }

  lemma FirmConsSplits(codec: Codec, ev: Event, firm: seq<Event>)
    requires !Stops(codec, ev)
    ensures var k', all := Cut(codec, firm), [ev] + firm;
            && Cut(codec, all) == k' + 1 && all[..k' + 1] == [ev] + firm[..k']
            && (k' < |firm| ==> all[k' + 1] == firm[k'] && all[k' + 2..] == firm[k' + 1..])
  {
    assert ([ev] + firm)[1..] == firm;
  }

  lemma {:induction false} FirmNeverBlamesIds(codec: Codec, events: seq<Event>)
    ensures forall i :: 0 <= i < |Firm(events)| ==> !Unnamed(Firm(events)[i])
    ensures !BlamesMissingId(LateFault(codec, Firm(events)))
  {
    if events != [] {
      FaultBlame(codec, events[0]);
      FirmNeverBlamesIds(codec, events[1..]);
      if !Provisional(events[0]) {
        assert Firm(events)[1..] == Firm(events[1..]);
      }
    }
  }

  lemma {:induction false} FirmLateFault(codec: Codec, events: seq<Event>)
    ensures LateFault(codec, Firm(events)) == LateFault(codec, events) <==> !BlamesMissingId(LateFault(codec, events))
  {
    FirmNeverBlamesIds(codec, events);
    if events != [] {
      FaultBlame(codec, events[0]);
      FirmLateFault(codec, events[1..]);
      if !Provisional(events[0]) {
        assert Firm(events)[1..] == Firm(events[1..]);
        FirmNeverBlamesIds(codec, events[1..]);
      }
    }
  }

  predicate StoppedByUnnamed(codec: Codec, events: seq<Event>) {
    var k := Cut(codec, events);
    k < |events| && Unnamed(events[k])
  }

  /** Same readings up to the stop, same stop, same rest. */
  lemma FirmAgrees(codec: Codec, events: seq<Event>)
    requires !StoppedByUnnamed(codec, events)
    ensures var k, k' := Cut(codec, events), Cut(codec, Firm(events));
            && Deltas(Firm(events)[..k']) == Deltas(events[..k])
            && Calls(codec, Firm(events)[..k']) == Calls(codec, events[..k])
            && LastUsage(Firm(events)[..k']) == LastUsage(events[..k])
            && (k' < |Firm(events)| <==> k < |events|)
            && (k < |events| ==> Firm(events)[k'] == events[k] && Firm(events)[k' + 1..] == Firm(events[k + 1..]))
  {
    FirmCut(codec, events);
    FirmReadings(codec, events[..Cut(codec, events)]);
  }

  lemma StoppedRunBlamesId(codec: Codec, events: seq<Event>, end: End)
    ensures StoppedByUnnamed(codec, events) <==>
            Verdict(codec, events, end) in {Err(StreamFailed(MissingStartId)), Err(StreamFailed(MissingDeltaId))}
    ensures !StoppedByUnnamed(codec, Firm(events))
  {
    var k, k' := Cut(codec, events), Cut(codec, Firm(events));
    if k < |events| {
      FaultBlame(codec, events[k]);
    }
    FirmNeverBlamesIds(codec, events);
  }

  /** Deleting every tool-input-* and tool-error event leaves the whole streamed body unchanged, exactly when
      the run is not stopped by a start or delta without an ID. */
  lemma StreamIgnoresProvisionalInput(codec: Codec, events: seq<Event>, end: End, includeUsage: bool)
    ensures StreamFrames(codec, Firm(events), end, includeUsage) == StreamFrames(codec, events, end, includeUsage)
            <==> !StoppedByUnnamed(codec, events)
  {
    if StoppedByUnnamed(codec, events) {
      UnnamedStopShows(codec, events, end, includeUsage);
    } else {
      FirmAgrees(codec, events);
      FirmVerdict(codec, events, end);
      UsageIgnoresProvisionalInput(codec, events);
    }
  }

  lemma FirmVerdict(codec: Codec, events: seq<Event>, end: End)
    requires !StoppedByUnnamed(codec, events)
    ensures Verdict(codec, Firm(events), end) == Verdict(codec, events, end)
  {
    FirmAgrees(codec, events);
  }

  lemma UnnamedStopShows(codec: Codec, events: seq<Event>, end: End, includeUsage: bool)
    requires StoppedByUnnamed(codec, events)
    ensures StreamFrames(codec, Firm(events), end, includeUsage) != StreamFrames(codec, events, end, includeUsage)
  {
    StoppedRunBlamesId(codec, events, end);
    StoppedRunBlamesId(codec, Firm(events), end);
    FailureShows(codec, events, end, includeUsage);
    FailureShows(codec, Firm(events), end, includeUsage);
  }

  /** ... and the recorded usage. */
  lemma UsageIgnoresProvisionalInput(codec: Codec, events: seq<Event>)
    requires !StoppedByUnnamed(codec, events)
    ensures FinalUsage(codec, Firm(events)) == FinalUsage(codec, events)
  {
    FirmAgrees(codec, events);
  }

  /** The first protocol error handleNonStream meets. */
  function FirstFault(codec: Codec, events: seq<Event>): Option<Error> {
    var k := Cut(codec, events);
    if k == |events| then None
    else if Fault(codec, events[k]).Some? then Fault(codec, events[k])
    else LateFault(codec, events[k + 1..])
  }

  predicate BlamesId(a: Answer) {
    a.Rejected? && a.failure.StreamFailed? && a.failure.error in {MissingStartId, MissingDeltaId}
  }

  lemma RejectionBlame(codec: Codec, events: seq<Event>, end: End)
    ensures BlamesId(NonStreamAnswer(codec, events, end)) <==> BlamesMissingId(FirstFault(codec, events))
  {
  }

  lemma {:induction false} FirmFirstFault(codec: Codec, events: seq<Event>)
    ensures !BlamesMissingId(FirstFault(codec, Firm(events)))
  {
    var k' := Cut(codec, Firm(events));
    FirmNeverBlamesIds(codec, events);
    if k' < |Firm(events)| {
      FaultBlame(codec, Firm(events)[k']);
      FirmTail(codec, events, k' + 1);
    }
  }

  /** The single answer likewise; there the stopping fault may also come after the finish. */
  lemma AnswerIgnoresProvisionalInput(codec: Codec, events: seq<Event>, end: End)
    ensures NonStreamAnswer(codec, Firm(events), end) == NonStreamAnswer(codec, events, end)
            <==> !BlamesMissingId(FirstFault(codec, events))
  {
    RejectionBlame(codec, events, end);
    RejectionBlame(codec, Firm(events), end);
    FirmFirstFault(codec, events);
    if !BlamesMissingId(FirstFault(codec, events)) {
      SameAnswerWhenNamed(codec, events, end);
    }
  }

  lemma SameFirstFault(codec: Codec, events: seq<Event>)
    requires !BlamesMissingId(FirstFault(codec, events))
    ensures !StoppedByUnnamed(codec, events)
    ensures FirstFault(codec, Firm(events)) == FirstFault(codec, events)
  {
    var k := Cut(codec, events);
    if k < |events| {
      FaultBlame(codec, events[k]);
      FirmLateFault(codec, events[k + 1..]);
    }
    FirmAgrees(codec, events);
  }

  /** The single answer, sorted by the first error of the run. */
  lemma AnswerByFault(codec: Codec, events: seq<Event>, end: End)
    ensures var k, fault := Cut(codec, events), FirstFault(codec, events);
            NonStreamAnswer(codec, events, end) ==
            if fault.Some? then Rejected(StreamFailed(fault.value))
            else if k == |events| || end.ReadFailed? then Rejected(EndFailure(end))
            else
              var reason, calls := FinishReasonOf(events[k]).value, Calls(codec, events[..k]);
              if reason == ToolCalls && calls == [] then Rejected(InvalidToolCall)
              else
                Answer(Join(Deltas(events), false), Join(Deltas(events), true), calls,
                       ResolveFinishReason(reason, calls != [], reason == Length), UsageInfo(FinalUsage(codec, events)))
  {
  }

  lemma SameAnswerWhenNamed(codec: Codec, events: seq<Event>, end: End)
    requires !BlamesMissingId(FirstFault(codec, events))
    ensures NonStreamAnswer(codec, Firm(events), end) == NonStreamAnswer(codec, events, end)
  {
    SameFirstFault(codec, events);
    AnswerByFault(codec, events, end);
    AnswerByFault(codec, Firm(events), end);
    FirmAgrees(codec, events);
    UsageIgnoresProvisionalInput(codec, events);
    FirmReadings(codec, events);
  }

  lemma {:induction false} FirmTail(codec: Codec, events: seq<Event>, i: nat)
    requires i <= |Firm(events)|
    ensures !BlamesMissingId(LateFault(codec, Firm(events)[i..]))
  {
    if i == 0 {
      assert Firm(events)[0..] == Firm(events);
      FirmNeverBlamesIds(codec, events);
    } else if Provisional(events[0]) {
      FirmTail(codec, events[1..], i);
    } else {
      assert Firm(events)[i..] == Firm(events[1..])[i - 1..];
      FirmTail(codec, events[1..], i - 1);
    }
  }
}
