/** What a Responses body comes to, in the words of the wire. */
module ZenMeaning {
  import opened Base
  import opened ZenResponses
  import SseLines

  // ---------------------------------------------------------------- lines to payloads

  /** What one line says, white space around it apart. */
  datatype Body = Blank | Data(text: string) | Named(name: string) | Ignored

  ghost predicate Says(line: string, b: Body) {
    var trimmed := TrimSpace(DropCr(line));
    match b
    case Blank => trimmed == ""
    case Data(text) => exists value :: trimmed == "data:" + value && TrimSpace(value) == text
    case Named(name) => exists value :: trimmed == "event:" + value && TrimSpace(value) == name
    case Ignored => trimmed != "" && !("data:" <= trimmed) && !("event:" <= trimmed)
  }

  ghost predicate AllSay(lines: seq<string>, bodies: seq<Body>) {
    |lines| == |bodies| && forall i :: 0 <= i < |lines| ==> Says(lines[i], bodies[i])
  }

  lemma EveryLineSays(line: string) returns (b: Body)
    ensures Says(line, b)
  {
    var trimmed := TrimSpace(DropCr(line));
    if trimmed == "" {
      b := Blank;
    } else if "data:" <= trimmed {
      b := Data(TrimSpace(trimmed[5..]));
      assert trimmed == "data:" + trimmed[5..];
    } else if "event:" <= trimmed {
      b := Named(TrimSpace(trimmed[6..]));
      assert trimmed == "event:" + trimmed[6..];
    } else {
      b := Body.Ignored;
    }
  }

  /** Payloads sent so far, and the data lines of the next one. */
  datatype Wire = Wire(pending: seq<string>, sent: seq<string>)

  function Flushed(w: Wire): Wire {
    if w.pending == [] then w else Wire([], w.sent + [SseLines.Joined(w.pending)])
  }

  function Received(bodies: seq<Body>): Wire {
    if bodies == [] then Wire([], [])
    else
      var w := Received(bodies[..|bodies| - 1]);
      match bodies[|bodies| - 1]
      case Data(text) => w.(pending := w.pending + [text])
      case Blank => Flushed(w)
      case _ => w
  }

  /** The last one needs no blank line. */
  function Payloads(bodies: seq<Body>): seq<string> {
    Flushed(Received(bodies)).sent
  }

  /** The events these payloads decode to; the terminator and what does not decode are passed over. */
  function Heard(lib: Lib, payloads: seq<string>): seq<Event> {
    if payloads == [] then []
    else
      var last := payloads[|payloads| - 1];
      Heard(lib, payloads[..|payloads| - 1])
      + if TrimSpace(last) == "" || TrimSpace(last) == "[DONE]" || lib.decode(last).None? then [] else [lib.decode(last).value]
  }

  predicate Done(payloads: seq<string>) {
    exists i :: 0 <= i < |payloads| && TrimSpace(payloads[i]) == "[DONE]"
  }

  /** Every event has a type of its own. */
  predicate Owned(events: seq<Event>) {
    forall i :: 0 <= i < |events| ==> events[i].typ != ""
  }

  function Typeds(events: seq<Event>): seq<Typed> {
    seq(|events|, i requires 0 <= i < |events| => (Classify(events[i].typ), events[i]))
  }

  ghost predicate Tracks(lib: Lib, s: Scan, w: Wire) {
    s.data == w.pending && s.fed == Typeds(Heard(lib, w.sent)) && s.sawDone == Done(w.sent)
  }

  lemma DoneNext(payloads: seq<string>, p: string)
    ensures Done(payloads + [p]) <==> Done(payloads) || TrimSpace(p) == "[DONE]"
  {
    var all := payloads + [p];
    assert all[|payloads|] == p;
    if Done(payloads) {
      var i :| 0 <= i < |payloads| && TrimSpace(payloads[i]) == "[DONE]";
      assert all[i] == payloads[i];
    }
  }

  lemma HeardNext(lib: Lib, payloads: seq<string>, p: string)
    ensures Heard(lib, payloads + [p]) ==
            Heard(lib, payloads) + if TrimSpace(p) == "" || TrimSpace(p) == "[DONE]" || lib.decode(p).None? then [] else [lib.decode(p).value]
  {
  }

  lemma TypedsNext(events: seq<Event>, ev: Event)
    ensures Typeds(events + [ev]) == Typeds(events) + [(Classify(ev.typ), ev)]
  {
  }

  lemma FlushTracks(lib: Lib, s: Scan, w: Wire, emitter: bool)
    requires Tracks(lib, s, w)
    requires emitter ==> Owned(Heard(lib, Flushed(w).sent))
    ensures Tracks(lib, Dispatch(lib, s, emitter), Flushed(w))
  {
    if w.pending != [] {
      var p := SseLines.Joined(w.pending);
      SseLines.JoinedIsJoinLines(w.pending);
      DoneNext(w.sent, p);
      HeardNext(lib, w.sent, p);
      if TrimSpace(p) != "" && TrimSpace(p) != "[DONE]" && lib.decode(p).Some? {
        var before, ev := Heard(lib, w.sent), lib.decode(p).value;
        TypedsNext(before, ev);
        assert (before + [ev])[|before|] == ev;
        FeedPayload(lib, s, p, ev, emitter);
      } else {
        assert Heard(lib, w.sent) + [] == Heard(lib, w.sent);
      }
    }
  }

  lemma FeedPayload(lib: Lib, s: Scan, p: string, ev: Event, emitter: bool)
    requires p == JoinLines(s.data) && TrimSpace(p) != "" && TrimSpace(p) != "[DONE]" && lib.decode(p) == Some(ev)
    requires emitter ==> ev.typ != ""
    ensures var t := Dispatch(lib, s, emitter);
            t.data == [] && t.fed == s.fed + [(Classify(ev.typ), ev)] && t.sawDone == s.sawDone
  {
  }

  lemma {:induction false} ScanTracks(lib: Lib, lines: seq<string>, bodies: seq<Body>, emitter: bool)
    requires AllSay(lines, bodies)
    requires emitter ==> Owned(Heard(lib, Received(bodies).sent))
    ensures Tracks(lib, ScanLines(lib, lines, emitter), Received(bodies))
  {
    if lines != [] {
      var m := |lines| - 1;
      var s, w := ScanLines(lib, lines[..m], emitter), Received(bodies[..m]);
      assert Says(lines[m], bodies[m]);
      OwnedBefore(lib, bodies, emitter);
      ScanTracks(lib, lines[..m], bodies[..m], emitter);
      LineSays(lib, s, lines[m], bodies[m], emitter);
      if bodies[m].Blank? {
        FlushTracks(lib, s, w, emitter);
      }
    }
  }

  lemma OwnedBefore(lib: Lib, bodies: seq<Body>, emitter: bool)
    requires bodies != [] && (emitter ==> Owned(Heard(lib, Received(bodies).sent)))
    ensures emitter ==> Owned(Heard(lib, Received(bodies[..|bodies| - 1]).sent))
  {
    var w := Received(bodies[..|bodies| - 1]);
    FlushedHeard(lib, w);
    if emitter && bodies[|bodies| - 1].Blank? {
      PrefixOwned(Heard(lib, w.sent), Heard(lib, Flushed(w).sent));
    }
  }

  lemma PrefixOwned(a: seq<Event>, b: seq<Event>)
    requires a <= b && Owned(b)
    ensures Owned(a)
  {
    assert forall i :: 0 <= i < |a| ==> a[i] == b[i];
  }

  lemma FlushedHeard(lib: Lib, w: Wire)
    ensures Heard(lib, w.sent) <= Heard(lib, Flushed(w).sent)
  {
    if w.pending != [] {
      HeardNext(lib, w.sent, SseLines.Joined(w.pending));
    }
  }

  lemma LineSays(lib: Lib, s: Scan, line: string, b: Body, emitter: bool)
    requires Says(line, b)
    ensures ScanLine(lib, s, line, emitter) ==
            match b
            case Blank => Dispatch(lib, s, emitter)
            case Data(text) => s.(data := s.data + [text])
            case Named(name) => s.(name := name)
            case Ignored => s
  {
    var trimmed := TrimSpace(DropCr(line));
    match b
    case Data(text) =>
      var value :| trimmed == "data:" + value && TrimSpace(value) == text;
      assert trimmed[5..] == value;
    case Named(name) =>
      var value :| trimmed == "event:" + value && TrimSpace(value) == name;
      assert trimmed[6..] == value;
    case _ =>
  }

  /** The events both folds are fed are those of the payloads on the wire, in order, each under its own type; for the
      emitter when every event has one. */
  lemma FedIsHeard(lib: Lib, lines: seq<string>, bodies: seq<Body>, emitter: bool)
    requires AllSay(lines, bodies)
    requires emitter ==> Owned(Heard(lib, Payloads(bodies)))
    ensures var s := Feed(lib, lines, emitter);
            s.fed == Typeds(Heard(lib, Payloads(bodies))) && s.sawDone == Done(Payloads(bodies))
  {
    var w := Received(bodies);
    FlushedHeard(lib, w);
    if emitter {
      PrefixOwned(Heard(lib, w.sent), Heard(lib, Flushed(w).sent));
    }
    ScanTracks(lib, lines, bodies, emitter);
    FlushTracks(lib, ScanLines(lib, lines, emitter), w, emitter);
  }

  // ---------------------------------------------------------------- the readings, in the words of the wire

  predicate IsDelta(ev: Event) { ev.typ == "response.output_text.delta" }

  predicate IsItem(ev: Event) {
    ev.typ == "response.output_item.done" && ev.item.Some? && ev.item.value.typ == "function_call"
  }

  predicate IsEnd(ev: Event) { ev.typ == "response.completed" || ev.typ == "response.incomplete" }

  predicate IsFailed(ev: Event) { ev.typ == "response.failed" }

  /** All text: each delta event's delta or, when that is empty, its text. */
  function Said(events: seq<Event>): string {
    if events == [] then ""
    else
      var ev := events[|events| - 1];
      Said(events[..|events| - 1]) + if !IsDelta(ev) then "" else if ev.delta != "" then ev.delta else ev.text
  }

  /** All calls: each function call item under its call ID or, when that is empty, its own. */
  function Called(events: seq<Event>): seq<ToolCall> {
    if events == [] then []
    else
      var ev := events[|events| - 1];
      Called(events[..|events| - 1])
      + if !IsItem(ev) then []
        else if ev.item.value.callId != "" then [ToolCall(ev.item.value.callId, ev.item.value.name, ev.item.value.arguments)]
        else [ToolCall(ev.item.value.id, ev.item.value.name, ev.item.value.arguments)]
  }

  /** Event i is the last of this kind. */
  ghost predicate Last(events: seq<Event>, i: nat, kind: Event -> bool) {
    i < |events| && kind(events[i]) && forall j :: i < j < |events| ==> !kind(events[j])
  }

  predicate NoneOf(events: seq<Event>, kind: Event -> bool) {
    forall i :: 0 <= i < |events| ==> !kind(events[i])
  }

  /** The reason an end gives: why it is incomplete or else its status, when that is not plain completion. */
  predicate GivesReason(ev: Event, reason: string) {
    match ev.response
    case None => reason == ""
    case Some(Response(status, Some(detail), _)) =>
      if detail != "" then reason == detail else if status == "completed" then reason == "" else reason == status
    case Some(Response(status, None, _)) => if status == "completed" then reason == "" else reason == status
  }

  predicate IsLengthWord(w: string) { w == "max_output_tokens" || w == "max_tokens" || w == "length" }

  /** The finish an end stands for after these events: calls always win, then an output cap, then the content filter. */
  ghost predicate FinishIs(lib: Lib, before: seq<Event>, ev: Event, finish: Finish) {
    exists reason :: GivesReason(ev, reason) &&
      var w := lib.lower(TrimSpace(reason));
      && (finish == ToolCalls <==> Called(before) != [])
      && (finish == Length <==> Called(before) == [] && IsLengthWord(w))
      && (finish == ContentFilter <==> Called(before) == [] && w == "content_filter")
      && (finish == Stop <==> Called(before) == [] && !IsLengthWord(w) && w != "content_filter")
  }

  predicate CountsTokens(ev: Event) { IsEnd(ev) && ev.response.Some? && ev.response.value.usage.Some? }

  /** The tokens told: those of the last end that has any, a total of zero being replaced by their sum. */
  ghost predicate UsageIs(events: seq<Event>, usage: Option<Usage>) {
    match usage
    case None => NoneOf(events, CountsTokens)
    case Some(Usage(prompt, completion, total)) =>
      exists i: nat, t :: Last(events, i, CountsTokens) && TokensAt(events, i, t)
        && prompt == t.input && completion == t.output && total == if t.total == 0 then t.input + t.output else t.total
  }

  predicate TokensAt(events: seq<Event>, i: nat, t: Tokens) {
    i < |events| && events[i].response.Some? && events[i].response.value.usage == Some(t)
  }

  /** What a body with these events comes to. A failure beats everything, then the lack of an end. */
  ghost predicate Comes(lib: Lib, events: seq<Event>, sawDone: bool, r: Result<Parsed, Error>) {
    match r
    case Err(UpstreamFailed(detail)) => exists i: nat :: Last(events, i, IsFailed) && events[i].error == detail
    case Err(Incomplete(done)) => NoneOf(events, IsFailed) && NoneOf(events, IsEnd) && done == sawDone
    case Err(Unreadable) => false
    case Ok(p) =>
      && NoneOf(events, IsFailed)
      && (exists i: nat :: Last(events, i, IsEnd) && FinishIs(lib, events[..i], events[i], p.finish))
      && Concat(p.deltas) == Said(events) && p.toolCalls == Called(events) && UsageIs(events, p.usage)
  }

  // ---------------------------------------------------------------- that is what the folds make of it

  lemma KindMeaning(typ: string)
    ensures Classify(typ) == TextDelta <==> typ == "response.output_text.delta"
    ensures Classify(typ) == ItemDone <==> typ == "response.output_item.done"
    ensures Classify(typ) == Completed <==> typ == "response.completed" || typ == "response.incomplete"
    ensures Classify(typ) == Failed <==> typ == "response.failed"
  {
    assert |"response.output_text.delta"| == 26 && |"response.output_item.done"| == 25;
    assert |"response.completed"| == 18 && |"response.incomplete"| == 19 && |"response.failed"| == 15;
    ClassifyUnfolds(typ);
  }

  lemma ClassifyUnfolds(typ: string)
    ensures Classify(typ) == if typ == "response.output_text.delta" then TextDelta else if typ == "response.output_item.done" then ItemDone
                             else if typ == "response.completed" || typ == "response.incomplete" then Completed
                             else if typ == "response.failed" then Failed else Kind.Ignored
  {
    var t := EVENT_WORDS;
    LookupStep(t, typ, Kind.Ignored);
    LookupStep(t[1..], typ, Kind.Ignored);
    LookupStep(t[2..], typ, Kind.Ignored);
    LookupStep(t[3..], typ, Kind.Ignored);
    LookupStep(t[4..], typ, Kind.Ignored);
    assert t[1..][1..] == t[2..] && t[2..][1..] == t[3..] && t[3..][1..] == t[4..] && t[4..][1..] == [];
  }

  lemma LookupStep<T>(table: seq<(string, T)>, word: string, default: T)
    requires table != []
    ensures Lookup(table, word, default) == if table[0].0 == word then table[0].1 else Lookup(table[1..], word, default)
  {
  }

  lemma FinishMeaning(lib: Lib, reason: string)
    ensures var finish, w := MapResponsesFinish(lib, reason), lib.lower(TrimSpace(reason));
            && (finish == Length <==> IsLengthWord(w)) && (finish == ContentFilter <==> w == "content_filter")
            && (finish == Stop <==> !IsLengthWord(w) && w != "content_filter")
  {
    var t, w := FINISH_WORDS, lib.lower(TrimSpace(reason));
    assert |"max_output_tokens"| == 17 && |"max_tokens"| == 10 && |"length"| == 6 && |"content_filter"| == 14;
    LookupStep(t, w, Stop);
    LookupStep(t[1..], w, Stop);
    LookupStep(t[2..], w, Stop);
    LookupStep(t[3..], w, Stop);
    assert t[1..][1..] == t[2..] && t[2..][1..] == t[3..] && t[3..][1..] == [];
  }

  lemma ReasonMeaning(ev: Event)
    ensures GivesReason(ev, ReasonOf(ev))
  {
  }

  /** The last event of a list, and the rest. */
  lemma TypedsLast(events: seq<Event>)
    requires events != []
    ensures var m := |events| - 1;
            |Typeds(events)| == m + 1 && Typeds(events)[..m] == Typeds(events[..m]) && Typeds(events)[m] == (Classify(events[m].typ), events[m])
  {
  }

  lemma {:induction false} TextIsSaid(events: seq<Event>)
    ensures Concat(Texts(Typeds(events))) == Said(events)
  {
    if events != [] {
      var m := |events| - 1;
      TextIsSaid(events[..m]);
      TypedsLast(events);
      KindMeaning(events[m].typ);
      var before, text := Texts(Typeds(events[..m])), TextOf(Typeds(events)[m]);
      if text != "" {
        ConcatNext(before, text);
      } else {
        assert before + [] == before;
      }
    }
  }

  lemma {:induction false} CallsAreCalled(events: seq<Event>)
    ensures Calls(Typeds(events)) == Called(events)
  {
    if events != [] {
      CallsAreCalled(events[..|events| - 1]);
      TypedsLast(events);
      KindMeaning(events[|events| - 1].typ);
    }
  }

  lemma LastInit(events: seq<Event>, kind: Event -> bool)
    requires events != [] && !kind(events[|events| - 1])
    ensures forall i: nat :: Last(events[..|events| - 1], i, kind) ==> Last(events, i, kind)
    ensures NoneOf(events[..|events| - 1], kind) ==> NoneOf(events, kind)
  {
    var init := events[..|events| - 1];
    assert forall i :: 0 <= i < |init| ==> init[i] == events[i];
  }

  lemma {:induction false} FailureIsLast(events: seq<Event>)
    ensures match Failure(Typeds(events))
            case None => NoneOf(events, IsFailed)
            case Some(UpstreamFailed(detail)) => exists i: nat :: Last(events, i, IsFailed) && events[i].error == detail
            case Some(_) => false
  {
    if events != [] {
      var m := |events| - 1;
      TypedsLast(events);
      KindMeaning(events[m].typ);
      if IsFailed(events[m]) {
        assert Last(events, m, IsFailed);
      } else {
        FailureIsLast(events[..m]);
        LastInit(events, IsFailed);
        if Failure(Typeds(events)).Some? {
          var i: nat :| Last(events[..m], i, IsFailed) && events[..m][i].error == Failure(Typeds(events)).value.detail;
          assert events[i] == events[..m][i];
        }
      }
    }
  }

  lemma TerminalIsHeard(events: seq<Event>)
    ensures Terminal(Typeds(events)) <==> !NoneOf(events, IsFailed) || !NoneOf(events, IsEnd)
  {
    forall i | 0 <= i < |events|
      ensures Typeds(events)[i].0 == Completed <==> IsEnd(events[i])
      ensures Typeds(events)[i].0 == Failed <==> IsFailed(events[i])
    {
      KindMeaning(events[i].typ);
    }
  }

  lemma {:induction false} FinishIsLast(lib: Lib, events: seq<Event>)
    ensures NoneOf(events, IsEnd) || exists i: nat :: Last(events, i, IsEnd) && FinishIs(lib, events[..i], events[i], FinishOf(lib, Typeds(events)))
  {
    if events != [] {
      var m := |events| - 1;
      TypedsLast(events);
      KindMeaning(events[m].typ);
      if IsEnd(events[m]) {
        assert Last(events, m, IsEnd);
        CallsAreCalled(events[..m]);
        EndFinish(lib, events[..m], events[m]);
      } else {
        FinishIsLast(lib, events[..m]);
        LastInit(events, IsEnd);
        if !NoneOf(events[..m], IsEnd) {
          var i: nat :| Last(events[..m], i, IsEnd) && FinishIs(lib, events[..m][..i], events[..m][i], FinishOf(lib, Typeds(events)));
          PrefixOfPrefix(events, m, i);
          assert Last(events, i, IsEnd) && events[i] == events[..m][i];
        }
      }
    }
  }

  lemma EndFinish(lib: Lib, before: seq<Event>, ev: Event)
    ensures FinishIs(lib, before, ev, if Called(before) != [] then ToolCalls else MapResponsesFinish(lib, ReasonOf(ev)))
  {
    ReasonMeaning(ev);
    FinishMeaning(lib, ReasonOf(ev));
    FinishNeverCalls(lib, ReasonOf(ev));
  }

  lemma FinishNeverCalls(lib: Lib, reason: string)
    ensures MapResponsesFinish(lib, reason) != ToolCalls
  {
    FinishMeaning(lib, reason);
  }

  lemma {:induction false} UsageIsLast(events: seq<Event>)
    ensures UsageIs(events, UsageOf(Typeds(events)))
  {
    if events != [] {
      var m := |events| - 1;
      TypedsLast(events);
      KindMeaning(events[m].typ);
      if CountsTokens(events[m]) {
        assert Last(events, m, CountsTokens) && TokensAt(events, m, events[m].response.value.usage.value);
      } else {
        UsageIsLast(events[..m]);
        LastInit(events, CountsTokens);
        UsageInit(events, UsageOf(Typeds(events)));
      }
    }
  }

  lemma UsageInit(events: seq<Event>, usage: Option<Usage>)
    requires events != [] && !CountsTokens(events[|events| - 1]) && UsageIs(events[..|events| - 1], usage)
    ensures UsageIs(events, usage)
  {
    var init := events[..|events| - 1];
    LastInit(events, CountsTokens);
    if usage.Some? {
      var i: nat, t :| Last(init, i, CountsTokens) && TokensAt(init, i, t)
        && usage.value.prompt == t.input && usage.value.completion == t.output
        && usage.value.total == if t.total == 0 then t.input + t.output else t.total;
      assert Last(events, i, CountsTokens) && TokensAt(events, i, t);
    }
  }

  lemma ScanComes(lib: Lib, s: Scan, events: seq<Event>)
    requires s.fed == Typeds(events)
    ensures Comes(lib, events, s.sawDone, Aggregated(lib, s))
  {
    FailureIsLast(events);
    TerminalIsHeard(events);
    TextIsSaid(events);
    CallsAreCalled(events);
    FinishIsLast(lib, events);
    UsageIsLast(events);
  }

  /** What the aggregator makes of any body. */
  lemma AggregatorMeaning(lib: Lib, lines: seq<string>, bodies: seq<Body>)
    requires AllSay(lines, bodies)
    ensures Comes(lib, Heard(lib, Payloads(bodies)), Done(Payloads(bodies)), Aggregated(lib, Feed(lib, lines, false)))
  {
    FedIsHeard(lib, lines, bodies, false);
    ScanComes(lib, Feed(lib, lines, false), Heard(lib, Payloads(bodies)));
  }

  /** What a client of the emitter reads from a body whose events have types of their own. */
  ghost predicate Shows(lib: Lib, events: seq<Event>, sawDone: bool, out: Emission) {
    var view := Read(out.chunks);
    && view.content == Said(events) && view.calls == Indexed(Called(events))
    && match out.error
       case Some(e) => !view.done && view.finish.None? && view.usage.None? && Comes(lib, events, sawDone, Err(e))
       case None => view.done && exists p :: Comes(lib, events, sawDone, Ok(p)) && view.finish == Some(p.finish) && view.usage == p.usage
  }

  lemma EmitterMeaning(lib: Lib, lines: seq<string>, bodies: seq<Body>)
    requires AllSay(lines, bodies) && Owned(Heard(lib, Payloads(bodies)))
    ensures Shows(lib, Heard(lib, Payloads(bodies)), Done(Payloads(bodies)), Emitted(lib, Feed(lib, lines, true)))
  {
    var s, events := Feed(lib, lines, true), Heard(lib, Payloads(bodies));
    FedIsHeard(lib, lines, bodies, true);
    ScanComes(lib, s, events);
    ReadEmitted(lib, s);
    TextIsSaid(events);
    CallsAreCalled(events);
  }
}
