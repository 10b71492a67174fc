/** What a client reads, in the words of the wire: fields, finish words, token counts. */
module EventMeaning {
  import opened Base
  import opened Events
  import opened Handler
  import opened StreamLaws

  // ---------------------------------------------------------------- finish words

  /** The word a finish event gives: its finish reason, or the raw one when that is blank. */
  function FinishWord(ev: Event): string {
    TrimSpace(if TrimSpace(ev.finishReason) == "" then ev.rawFinishReason else ev.finishReason)
  }

  lemma {:induction false} LookupFinds(table: seq<(string, Reason)>, word: string)
    ensures LookupWord(table, word).None? <==> forall i :: 0 <= i < |table| ==> table[i].0 != word
    ensures LookupWord(table, word).Some? ==>
              exists i :: 0 <= i < |table| && table[i] == (word, LookupWord(table, word).value)
  {
    if table != [] && table[0].0 != word {
      LookupFinds(table[1..], word);
      if LookupWord(table, word).Some? {
        var i :| 0 <= i < |table[1..]| && table[1..][i] == (word, LookupWord(table[1..], word).value);
        assert table[i + 1] == (word, LookupWord(table, word).value);
      } else {
        forall i | 0 <= i < |table| ensures table[i].0 != word {
          assert i > 0 ==> table[i] == table[1..][i - 1];
        }
      }
    } else if table != [] {
      assert table[0] == (word, LookupWord(table, word).value);
    }
  }

  predicate IsStopWord(w: string) { w == "stop" || w == "end" || w == "end_turn" }

  predicate IsToolWord(w: string) { w == "tool-calls" || w == "tool_calls" || w == "tool_use" || w == "function_call" }

  predicate IsLengthWord(w: string) { w == "max_tokens" || w == "max_output_tokens" || w == "length" }

  predicate IsFilterWord(w: string) { w == "content_filter" }

  /** The words a finish can be accepted with, and what each stands for. */
  lemma FinishWords(ev: Event)
    ensures match FinishReasonOf(ev)
            case Ok(Stop) => IsStopWord(FinishWord(ev))
            case Ok(ToolCalls) => IsToolWord(FinishWord(ev))
            case Ok(Length) => IsLengthWord(FinishWord(ev))
            case Ok(ContentFilter) => IsFilterWord(FinishWord(ev))
            case Err(e) =>
              var w := FinishWord(ev);
              !IsStopWord(w) && !IsToolWord(w) && !IsLengthWord(w) && !IsFilterWord(w) && e.BadFinish?
  {
    var w := FinishWord(ev);
    LookupFinds(FINISH_WORDS, w);
    WordTable(w);
  }

  lemma WordTable(w: string)
    ensures forall i :: 0 <= i < |FINISH_WORDS| && FINISH_WORDS[i].0 == w ==>
              match FINISH_WORDS[i].1
              case Stop => IsStopWord(w)
              case ToolCalls => IsToolWord(w)
              case Length => IsLengthWord(w)
              case ContentFilter => IsFilterWord(w)
    ensures IsStopWord(w) || IsToolWord(w) || IsLengthWord(w) || IsFilterWord(w) ==>
              exists i :: 0 <= i < |FINISH_WORDS| && FINISH_WORDS[i].0 == w
  {
    var t := FINISH_WORDS;
    assert t[0].0 == "stop" && t[1].0 == "end" && t[2].0 == "end_turn";
    assert t[3].0 == "tool-calls" && t[4].0 == "tool_calls" && t[5].0 == "tool_use" && t[6].0 == "function_call";
    assert t[7].0 == "max_tokens" && t[8].0 == "max_output_tokens" && t[9].0 == "length" && t[10].0 == "content_filter";
  }

  // ---------------------------------------------------------------- the finish a client is told

  /** An output cap always wins, then the content filter, then the calls. */
  predicate FinishIs(w: string, told: Reason, hasCalls: bool) {
    && (told == Length <==> IsLengthWord(w))
    && (told == ContentFilter <==> IsFilterWord(w))
    && (told == ToolCalls <==> hasCalls && !IsLengthWord(w) && !IsFilterWord(w))
    && (told == Stop <==> !hasCalls && !IsLengthWord(w) && !IsFilterWord(w))
  }

  /** The run is stopped by a finish with a known word, which does not announce calls there are none of. */
  predicate Completes(codec: Codec, events: seq<Event>) {
    var k := Cut(codec, events);
    && k < |events| && events[k].kind == FinishKind
    && var w := FinishWord(events[k]);
       && IsKnownWord(w)
       && (IsToolWord(w) ==> Calls(codec, events[..k]) != [])
  }

  lemma VerdictMeaning(codec: Codec, events: seq<Event>, end: End)
    ensures Verdict(codec, events, end).Ok? <==> Completes(codec, events)
    ensures Completes(codec, events) ==>
              FinishIs(FinishWord(events[Cut(codec, events)]), Verdict(codec, events, end).value, Calls(codec, events[..Cut(codec, events)]) != [])
  {
    var k := Cut(codec, events);
    VerdictByReason(codec, events, end);
    if k < |events| {
      CompletesByReason(codec, events, k);
      if Verdict(codec, events, end).Ok? {
        ToldByReason(events[k], Calls(codec, events[..k]) != [], Verdict(codec, events, end).value);
      }
    }
  }

  predicate Committed(codec: Codec, events: seq<Event>, k: nat)
    requires k < |events|
  {
    events[k].kind == FinishKind && FinishReasonOf(events[k]).Ok? && (FinishReasonOf(events[k]) == Ok(ToolCalls) ==> Calls(codec, events[..k]) != [])
  }

  lemma VerdictByReason(codec: Codec, events: seq<Event>, end: End)
    ensures var k := Cut(codec, events);
            && (Verdict(codec, events, end).Ok? <==> k < |events| && Committed(codec, events, k))
            && (Verdict(codec, events, end).Ok? ==>
                  var reason := FinishReasonOf(events[k]).value;
                  Verdict(codec, events, end).value == ResolveFinishReason(reason, Calls(codec, events[..k]) != [], reason == Length))
  {
    var k := Cut(codec, events);
    if k < |events| {
      StopFault(codec, events[k]);
    }
  }

  /** What stops a run without a fault is a finish with a known reason. */
  lemma StopFault(codec: Codec, ev: Event)
    requires Stops(codec, ev)
    ensures Fault(codec, ev).None? <==> ev.kind == FinishKind && FinishReasonOf(ev).Ok?
  {
  }

  lemma CompletesByReason(codec: Codec, events: seq<Event>, k: nat)
    requires k < |events| && k == Cut(codec, events)
    ensures Completes(codec, events) <==> Committed(codec, events, k)
  {
    WordDecides(events[k]);
    KnownReason(FinishReasonOf(events[k]));
  }

  lemma KnownReason(r: Result<Reason, Error>)
    ensures r.Ok? <==> r == Ok(Stop) || r == Ok(ToolCalls) || r == Ok(Length) || r == Ok(ContentFilter)
  {
    match r
    case Ok(Stop) =>
    case Ok(ToolCalls) =>
    case Ok(Length) =>
    case Ok(ContentFilter) =>
    case Err(_) =>
  }

  lemma ToldByReason(ev: Event, hasCalls: bool, told: Reason)
    requires FinishReasonOf(ev).Ok? && (FinishReasonOf(ev).value == ToolCalls ==> hasCalls)
    requires told == ResolveFinishReason(FinishReasonOf(ev).value, hasCalls, FinishReasonOf(ev).value == Length)
    ensures FinishIs(FinishWord(ev), told, hasCalls)
  {
    WordDecides(ev);
    ReasonDecides(FinishReasonOf(ev).value, hasCalls);
  }

  /** The four word classes are the four reasons. */
  lemma WordDecides(ev: Event)
    ensures var w, reason := FinishWord(ev), FinishReasonOf(ev);
            && (IsStopWord(w) <==> reason == Ok(Stop)) && (IsToolWord(w) <==> reason == Ok(ToolCalls))
            && (IsLengthWord(w) <==> reason == Ok(Length)) && (IsFilterWord(w) <==> reason == Ok(ContentFilter))
  {
    FinishWords(ev);
    WordsDiffer(FinishWord(ev));
  }

  lemma ReasonDecides(reason: Reason, hasCalls: bool)
    requires reason == ToolCalls ==> hasCalls
    ensures var told := ResolveFinishReason(reason, hasCalls, reason == Length);
            && (told == Length <==> reason == Length)
            && (told == ContentFilter <==> reason == ContentFilter)
            && (told == ToolCalls <==> hasCalls && reason != Length && reason != ContentFilter)
            && (told == Stop <==> !hasCalls && reason != Length && reason != ContentFilter)
  {
  }

  lemma WordsDiffer(w: string)
    ensures IsStopWord(w) ==> !IsToolWord(w) && !IsLengthWord(w) && !IsFilterWord(w)
    ensures IsToolWord(w) ==> !IsLengthWord(w) && !IsFilterWord(w)
    ensures IsLengthWord(w) ==> !IsFilterWord(w)
  {
    assert |"stop"| == 4 && |"end"| == 3 && |"end_turn"| == 8 && |"tool-calls"| == 10 && |"tool_calls"| == 10 && |"tool_use"| == 8;
    assert |"function_call"| == 13 && |"max_tokens"| == 10 && |"max_output_tokens"| == 17 && |"length"| == 6 && |"content_filter"| == 14;
    assert "end_turn"[0] == 'e' && "tool_use"[0] == 't' && "tool-calls"[0] == 't' && "tool_calls"[0] == 't' && "max_tokens"[0] == 'm';
  }

  /** The finish a streaming client reads. */
  lemma StreamFinish(codec: Codec, events: seq<Event>, end: End, includeUsage: bool)
    ensures var v := Read(StreamFrames(codec, events, end, includeUsage));
            && (v.finish.Some? <==> Completes(codec, events))
            && (v.finish.Some? ==> FinishIs(FinishWord(events[Cut(codec, events)]), v.finish.value, v.calls != []))
  {
    ReadStream(codec, events, end, includeUsage);
    VerdictMeaning(codec, events, end);
  }

  /** The finish of the single answer, beside the calls it carries. */
  lemma AnswerFinish(codec: Codec, events: seq<Event>, end: End)
    ensures var answer := NonStreamAnswer(codec, events, end);
            answer.Answer? ==> Completes(codec, events) && FinishIs(FinishWord(events[Cut(codec, events)]), answer.reason, answer.calls != [])
  {
    Unstreamed(codec, events, end);
    VerdictMeaning(codec, events, end);
  }

  // ---------------------------------------------------------------- what stops a run, and the failure shown

  predicate IsKnownWord(w: string) {
    IsStopWord(w) || IsToolWord(w) || IsLengthWord(w) || IsFilterWord(w)
  }

  /** The failure of an event that breaks the protocol on its own. */
  ghost predicate Breaks(codec: Codec, ev: Event, e: Error) {
    match ev.kind
    case ErrorKind => e == UpstreamError(ev.error)
    case ToolInputStart => Names(ev, "") && e == MissingStartId
    case ToolInputDelta => Names(ev, "") && e == MissingDeltaId
    case ToolCallKind => (forall call :: !IsCall(codec, ev, call)) && e.BadToolCall? && Names(ev, e.id)
    case FinishKind => !IsKnownWord(FinishWord(ev)) && e.BadFinish? && TrimSpace(e.reason) == FinishWord(ev)
    case _ => false
  }

  lemma FaultBreaks(codec: Codec, ev: Event, e: Error)
    ensures Fault(codec, ev) == Some(e) ==> Breaks(codec, ev, e)
    ensures Fault(codec, ev).None? ==> !Breaks(codec, ev, e)
  {
    match ev.kind
    case ToolCallKind =>
      var call := ToolCallFromEvent(codec, ev);
      AcceptedCalls(codec, ev, if call.Ok? then call.value else ToolCall("", "", "", Unknown));
      forall other ensures ToolCallFromEvent(codec, ev) == Ok(other) <==> IsCall(codec, ev, other) {
        AcceptedCalls(codec, ev, other);
      }
    case FinishKind =>
      WordDecides(ev);
      KnownReason(FinishReasonOf(ev));
    case _ =>
  }

  /** The first event that finishes the run or breaks the protocol stops it. */
  lemma CutMeaning(codec: Codec, events: seq<Event>, i: nat, e: Error)
    requires i < |events|
    ensures i < Cut(codec, events) ==> events[i].kind != FinishKind && !Breaks(codec, events[i], e)
    ensures i == Cut(codec, events) ==> events[i].kind == FinishKind || exists e' :: Breaks(codec, events[i], e')
  {
    FaultBreaks(codec, events[i], e);
    if Fault(codec, events[i]).Some? {
      FaultBreaks(codec, events[i], Fault(codec, events[i]).value);
    }
  }

  /** The failure a run ends with when it is not completed: how it ended when nothing stopped it, what broke it, or a
      finish that announces calls there are none of. */
  ghost predicate FailsWith(codec: Codec, events: seq<Event>, end: End, failure: Failure) {
    var k := Cut(codec, events);
    if k == |events| then
      match end
      case Eof => failure == Incomplete(false)
      case SawDone => failure == Incomplete(true)
      case ReadFailed(m) => failure == StreamFailed(ReadError(m))
    else
      && failure.StreamFailed?
      && (Breaks(codec, events[k], failure.error) || (events[k].kind == FinishKind && IsToolWord(FinishWord(events[k])) && failure.error == NoValidToolCalls))
  }

  lemma VerdictFails(codec: Codec, events: seq<Event>, end: End)
    requires Verdict(codec, events, end).Err?
    ensures FailsWith(codec, events, end, Verdict(codec, events, end).error)
  {
    var k := Cut(codec, events);
    if k < |events| {
      if Fault(codec, events[k]).Some? {
        FaultBreaks(codec, events[k], Fault(codec, events[k]).value);
      } else {
        WordDecides(events[k]);
      }
    }
  }

  /** A streaming client reads a failure exactly when the run is not completed, and then that one. */
  lemma StreamFailure(codec: Codec, events: seq<Event>, end: End, includeUsage: bool)
    ensures var v := Read(StreamFrames(codec, events, end, includeUsage));
            && (v.failure.Some? <==> !Completes(codec, events))
            && (v.failure.Some? ==> FailsWith(codec, events, end, v.failure.value))
  {
    FailureShows(codec, events, end, includeUsage);
    VerdictMeaning(codec, events, end);
    if Verdict(codec, events, end).Err? {
      VerdictFails(codec, events, end);
    }
  }

  // ---------------------------------------------------------------- calls

  ghost predicate Makes(codec: Codec, ev: Event, call: ToolCall) {
    ev.kind == ToolCallKind && IsCall(codec, ev, call)
  }

  ghost predicate Calling(codec: Codec, ev: Event) {
    exists call :: Makes(codec, ev, call)
  }

  lemma ValidCallMakes(codec: Codec, ev: Event)
    ensures if Calling(codec, ev) then |ValidCall(codec, ev)| == 1 && Makes(codec, ev, ValidCall(codec, ev)[0])
            else ValidCall(codec, ev) == []
  {
    forall call ensures ToolCallFromEvent(codec, ev) == Ok(call) <==> IsCall(codec, ev, call) {
      AcceptedCalls(codec, ev, call);
    }
    if ValidCall(codec, ev) != [] {
      assert Makes(codec, ev, ValidCall(codec, ev)[0]);
    }
  }

  /** These positions, in order, are those of the non-empty parts, and these the values there. */
  ghost predicate Placed<T>(parts: seq<seq<T>>, at: seq<nat>, all: seq<T>) {
    && |at| == |all| && Increasing(at)
    && (forall k :: 0 <= k < |at| ==> at[k] < |parts| && parts[at[k]] == [all[k]])
    && (forall i :: 0 <= i < |parts| && parts[i] != [] ==> i in at)
  }

  lemma PlacedNext<T>(parts: seq<seq<T>>, at: seq<nat>, all: seq<T>, part: seq<T>)
    requires Placed(parts, at, all) && |part| <= 1
    ensures Placed(parts + [part], at + if part == [] then [] else [|parts|], all + part)
  {
  }

  ghost function CallParts(codec: Codec, events: seq<Event>): (parts: seq<seq<ToolCall>>)
    ensures |parts| == |events| && forall i :: 0 <= i < |parts| ==> parts[i] == ValidCall(codec, events[i])
  {
    seq(|events|, i requires 0 <= i < |events| => ValidCall(codec, events[i]))
  }

  lemma PartsNext(codec: Codec, events: seq<Event>, ev: Event)
    ensures CallParts(codec, events + [ev]) == CallParts(codec, events) + [ValidCall(codec, ev)] && |ValidCall(codec, ev)| <= 1
  {
  }

  lemma {:induction false} CallsPlaced(codec: Codec, events: seq<Event>) returns (at: seq<nat>)
    ensures Placed(CallParts(codec, events), at, ValidCalls(codec, events))
  {
    if events == [] {
      at := [];
    } else {
      var init, ev := events[..|events| - 1], events[|events| - 1];
      assert events == init + [ev];
      at := CallsPlaced(codec, init);
      PartsNext(codec, init, ev);
      ValidCallsNext(codec, init, ev);
      PlacedNext(CallParts(codec, init), at, ValidCalls(codec, init), ValidCall(codec, ev));
      at := at + if ValidCall(codec, ev) == [] then [] else [|init|];
    }
  }

  /** The calls of a run, repeats included, are those of its tool-call events that are one, in their order. */
  lemma CallsMeaning(codec: Codec, events: seq<Event>) returns (at: seq<nat>)
    ensures |at| == |ValidCalls(codec, events)| && Increasing(at)
    ensures forall k :: 0 <= k < |at| ==> at[k] < |events| && Makes(codec, events[at[k]], ValidCalls(codec, events)[k])
    ensures forall i :: 0 <= i < |events| && Calling(codec, events[i]) ==> i in at
  {
    at := CallsPlaced(codec, events);
    forall k | 0 <= k < |at| ensures at[k] < |events| && Makes(codec, events[at[k]], ValidCalls(codec, events)[k]) {
      ValidCallMakes(codec, events[at[k]]);
    }
    forall i | 0 <= i < |events| && Calling(codec, events[i]) ensures i in at {
      ValidCallMakes(codec, events[i]);
    }
  }

  // ---------------------------------------------------------------- text

  /** The text of all events of a kind, each the text field or, when that is empty, the delta field. */
  function Said(events: seq<Event>, kind: Kind): string {
    if events == [] then ""
    else (if events[0].kind != kind then "" else if events[0].text != "" then events[0].text else events[0].delta) + Said(events[1..], kind)
  }

  lemma {:induction false} DeltasSay(events: seq<Event>, reasoning: bool)
    ensures Join(Deltas(events), reasoning) == Said(events, if reasoning then ReasoningDelta else TextDelta)
  {
    if events != [] {
      var first := [events[0]];
      assert events == first + events[1..];
      DeltasSay(events[1..], reasoning);
      DeltasAppend(first, events[1..]);
      JoinAppend(Deltas(first), Deltas(events[1..]), reasoning);
      OneSays(events[0], reasoning);
    }
  }

  lemma OneSays(ev: Event, reasoning: bool)
    ensures Join(Deltas([ev]), reasoning) ==
            if ev.kind != (if reasoning then ReasoningDelta else TextDelta) then "" else if ev.text != "" then ev.text else ev.delta
  {
    var delta := if ev.text != "" then ev.text else ev.delta;
    assert [] + [ev] == [ev];
    DeltasNext([], ev);
    NoDeltas();
    if ev.kind in {TextDelta, ReasoningDelta} && delta != "" {
      JoinOne(Delta(ev.kind == ReasoningDelta, delta), reasoning);
      assert Deltas([ev]) == [Delta(ev.kind == ReasoningDelta, delta)];
    } else {
      assert Deltas([ev]) == [];
    }
  }

  lemma NoDeltas()
    ensures Deltas([]) == []
  {
  }

  lemma JoinOne(d: Delta, reasoning: bool)
    ensures Join([d], reasoning) == if d.reasoning == reasoning then d.text else ""
  {
    JoinNext([], d, reasoning);
    assert [] + [d] == [d] && "" + d.text == d.text;
  }

  /** A streaming client reads the text and the reasoning before the stop, whatever becomes of the run. */
  lemma StreamText(codec: Codec, events: seq<Event>, end: End, includeUsage: bool)
    ensures var v, p := Read(StreamFrames(codec, events, end, includeUsage)), events[..Cut(codec, events)];
            v.content == Said(p, TextDelta) && v.reasoning == Said(p, ReasoningDelta)
  {
    ReadStream(codec, events, end, includeUsage);
    DeltasSay(events[..Cut(codec, events)], false);
    DeltasSay(events[..Cut(codec, events)], true);
  }

  /** The single answer holds all of it. */
  lemma AnswerText(codec: Codec, events: seq<Event>, end: End)
    ensures var answer := NonStreamAnswer(codec, events, end);
            answer.Answer? ==> answer.content == Said(events, TextDelta) && answer.reasoning == Said(events, ReasoningDelta)
  {
    Unstreamed(codec, events, end);
    DeltasSay(events, false);
    DeltasSay(events, true);
  }

  // ---------------------------------------------------------------- token counts

  /** What a usage report comes to for the client and for the records: nothing without one; otherwise its own counts, a
      missing total being their sum, and cache counts only when it has them. */
  predicate UsageIs(report: Option<CcUsage>, told: Usage, recorded: Recorded) {
    match report
    case None => told == Usage(0, 0, 0, None) && recorded == Recorded(0, 0, 0, 0)
    case Some(CcUsage(input, output, total, None)) =>
      && told == Usage(input, output, if total > 0 then total else input + output, None)
      && recorded == Recorded(input, output, 0, 0)
    case Some(CcUsage(input, output, total, Some(TokenDetails(read, write)))) =>
      && told == Usage(input, output, if total > 0 then total else input + output, Some(read))
      && recorded == Recorded(input, output, read, write)
  }

  lemma UsageMeaning(u: Option<CcUsage>)
    ensures UsageIs(u, UsageInfo(u), UsageRecord(u))
  {
  }

  /** The token counts a streaming client reads, and those recorded. */
  lemma StreamUsage(codec: Codec, events: seq<Event>, end: End)
    ensures var v, report := Read(StreamFrames(codec, events, end, true)), FinalUsage(codec, events);
            && (v.usage.Some? <==> Completes(codec, events))
            && (v.usage.Some? ==> UsageIs(report, v.usage.value, UsageRecord(report)))
  {
    ReadStream(codec, events, end, true);
    VerdictMeaning(codec, events, end);
    UsageMeaning(FinalUsage(codec, events));
  }

  /** The single answer's. */
  lemma AnswerUsage(codec: Codec, events: seq<Event>, end: End)
    ensures var answer, report := NonStreamAnswer(codec, events, end), FinalUsage(codec, events);
            answer.Answer? ==> UsageIs(report, answer.usage, UsageRecord(report))
  {
    Unstreamed(codec, events, end);
    UsageMeaning(FinalUsage(codec, events));
  }

  /** The report that counts is the finish's own total or else the last finish-step report before the stop. */
  lemma {:induction false} LastReport(events: seq<Event>)
    ensures match LastUsage(events)
            case None => forall i :: 0 <= i < |events| && events[i].kind == FinishStep ==> events[i].usage.None?
            case Some(u) =>
              exists i :: 0 <= i < |events| && events[i].kind == FinishStep && events[i].usage == Some(u)
                       && forall j :: i < j < |events| && events[j].kind == FinishStep ==> events[j].usage.None?
  {
    if events != [] {
      var m := |events| - 1;
      LastReport(events[..m]);
      if events[m].kind == FinishStep && events[m].usage.Some? {
        assert events[m].usage == LastUsage(events);
      } else if LastUsage(events).Some? {
        var i :| 0 <= i < m && events[..m][i].kind == FinishStep && events[..m][i].usage == LastUsage(events)
              && forall j :: i < j < m && events[..m][j].kind == FinishStep ==> events[..m][j].usage.None?;
        assert events[i].usage == LastUsage(events);
        assert forall j :: 0 <= j < m ==> events[j] == events[..m][j];
      } else {
        assert forall j :: 0 <= j < m ==> events[j] == events[..m][j];
      }
    }
  }

  /** Of a run: the total of a finish with a known word, or else the last finish-step report before the stop. */
  lemma FinalReport(codec: Codec, events: seq<Event>)
    ensures var k := Cut(codec, events);
            if k < |events| && events[k].kind == FinishKind && IsKnownWord(FinishWord(events[k])) && events[k].totalUsage.Some?
            then FinalUsage(codec, events) == events[k].totalUsage
            else FinalUsage(codec, events) == LastUsage(events[..k])
  {
    var k := Cut(codec, events);
    if k < |events| {
      StopFault(codec, events[k]);
      WordDecides(events[k]);
      KnownReason(FinishReasonOf(events[k]));
    }
  }
}
