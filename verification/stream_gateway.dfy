/** From the bytes of an upstream body to the response: parser, normalizer and either sink together. */
module StreamGateway {
  import opened Base
  import opened Events
  import opened Handler
  import opened Sse
  import opened SseLaws
  import opened StreamLaws

  /** decodeSSEEvent, with its error message. */
  type Decoder = string -> Result<Event, string>

  /** The events of these payloads, up to the first that does not decode. */
  function Decoded(decode: Decoder, payloads: seq<string>): (events: seq<Event>)
    ensures |events| <= |payloads|
  {
    if payloads == [] then []
    else
      var init := payloads[..|payloads| - 1];
      var events, last := Decoded(decode, init), decode(payloads[|payloads| - 1]);
      if |events| == |init| && last.Ok? then events + [last.value] else events
  }

  /** The error a handler's callback returns at the last of some events. */
  type Callback = seq<Event> -> Option<Error>

  function Streaming(codec: Codec): Callback {
    events => CallbackError(codec, events)
  }

  function Collecting(codec: Codec): Callback {
    events => AnswerError(codec, events)
  }

  /** What the parser hears back for a payload: its decoding error, or the error of the callback. */
  function Reaction(callback: Callback, decode: Decoder, describe: Error -> string): React {
    (delivered: seq<string>) =>
      if delivered == [] then None
      else match decode(delivered[|delivered| - 1])
        case Err(message) => Some(message)
        case Ok(_) =>
          match callback(Decoded(decode, delivered))
          case None => None
          case Some(e) => Some(describe(e))
  }

  function ErrorText(e: ParseError): string {
    match e
    case LineTooLong => "sse line exceeds 33554432 bytes"
    case EventTooLong => "sse event exceeds 33554432 bytes"
    case Rejected(m) => m
    case ReadError(m) => m
  }

  function EndOf(end: Option<EndKind>): Handler.End {
    match end
    case Some(EndDone) => SawDone
    case Some(EndError(e)) => ReadFailed(ErrorText(e))
    case _ => Handler.Eof
  }

  /** The streamed response to a body, however its reads are cut. */
  method RespondStream(codec: Codec, decode: Decoder, describe: Error -> string, reader: LineReader, includeUsage: bool)
    returns (frames: seq<Frame>, recorded: Recorded, p: Parser)
    modifies reader
    ensures reader.last == IoError.Eof ==> p == Parse(old(reader.rest), Reaction(Streaming(codec), decode, describe))
    ensures reader.last.ReadFault? ==> ParsesFailing(old(reader.rest), reader.last.message, Reaction(Streaming(codec), decode, describe), p)
    ensures frames == StreamFrames(codec, Decoded(decode, p.delivered), EndOf(p.end), includeUsage)
    ensures recorded == UsageRecord(FinalUsage(codec, Decoded(decode, p.delivered)))
    ensures WellClosed(frames)
  {
    p := ParseStreamEvents(reader, Reaction(Streaming(codec), decode, describe));
    frames, recorded := HandleStream(codec, Decoded(decode, p.delivered), EndOf(p.end), includeUsage);
    EveryStreamCloses(codec, Decoded(decode, p.delivered), EndOf(p.end), includeUsage);
  }

  /** The single answer to a body, however its reads are cut. */
  method RespondOnce(codec: Codec, decode: Decoder, describe: Error -> string, reader: LineReader)
    returns (answer: Answer, recorded: Option<Recorded>, p: Parser)
    modifies reader
    ensures reader.last == IoError.Eof ==> p == Parse(old(reader.rest), Reaction(Collecting(codec), decode, describe))
    ensures reader.last.ReadFault? ==> ParsesFailing(old(reader.rest), reader.last.message, Reaction(Collecting(codec), decode, describe), p)
    ensures answer == NonStreamAnswer(codec, Decoded(decode, p.delivered), EndOf(p.end))
    ensures recorded == if answer.Answer? then Some(UsageRecord(FinalUsage(codec, Decoded(decode, p.delivered)))) else None
  {
    p := ParseStreamEvents(reader, Reaction(Collecting(codec), decode, describe));
    answer, recorded := HandleNonStream(codec, Decoded(decode, p.delivered), EndOf(p.end));
  }

  // ---------------------------------------------------------------- framed events

  /** These payloads decode to these events. */
  predicate Carries(decode: Decoder, payloads: seq<string>, events: seq<Event>) {
    && |payloads| == |events|
    && forall i :: 0 <= i < |payloads| ==> Carried(payloads[i]) && decode(payloads[i]) == Ok(events[i])
  }

  predicate Carried(payload: string) {
    TrimSpace(payload) != "" && TrimSpace(payload) != "[DONE]"
  }

  lemma {:induction false} DecodedCarries(decode: Decoder, payloads: seq<string>, events: seq<Event>)
    requires Carries(decode, payloads, events)
    ensures Decoded(decode, payloads) == events
  {
    if payloads != [] {
      var m := |payloads| - 1;
      DecodedCarries(decode, payloads[..m], events[..m]);
      assert events == events[..m] + [events[m]];
    }
  }

  /** The parser delivers all of them, or stops at the first one the callback refuses. */
  lemma {:induction false} EventsReplay(callback: Callback, decode: Decoder, describe: Error -> string, frames: seq<Framed>, payloads: seq<string>, events: seq<Event>, i: nat) returns (m: nat)
    requires CarriesAll(decode, frames, payloads, events) && i <= |payloads|
    ensures i <= m <= |payloads|
    ensures var (delivered, end) := Replay(frames[i..], payloads[..i], Reaction(callback, decode, describe));
            && delivered == payloads[..m]
            && ((m == |payloads| && end == EndDone) || (m > 0 && callback(events[..m]).Some? && end.EndError?))
    decreases |payloads| - i
  {
    var react := Reaction(callback, decode, describe);
    ReplayNext(frames, i, payloads[..i], react);
    if i == |payloads| {
      m := i;
    } else {
      TakeNext(payloads, i);
      ReactionAt(callback, decode, describe, payloads, events, i);
      if callback(events[..i + 1]).None? {
        m := EventsReplay(callback, decode, describe, frames, payloads, events, i + 1);
      } else {
        m := i + 1;
      }
    }
  }

  lemma ReplayNext(frames: seq<Framed>, i: nat, before: seq<string>, react: React)
    requires i < |frames| && TrimSpace(Payload(frames[i])) != ""
    ensures var payload := Payload(frames[i]);
            Replay(frames[i..], before, react) ==
            if TrimSpace(payload) == "[DONE]" then (before, EndDone)
            else match react(before + [payload])
              case Some(e) => (before + [payload], EndError(ParseError.Rejected(e)))
              case None => Replay(frames[i + 1..], before + [payload], react)
  {
    assert frames[i..][1..] == frames[i + 1..];
  }

  lemma ReactionAt(callback: Callback, decode: Decoder, describe: Error -> string, payloads: seq<string>, events: seq<Event>, i: nat)
    requires Carries(decode, payloads, events) && i < |payloads|
    ensures Reaction(callback, decode, describe)(payloads[..i + 1]) ==
            match callback(events[..i + 1]) case None => None case Some(e) => Some(describe(e))
  {
    CarriesPrefix(decode, payloads, events, i + 1);
    DecodedCarries(decode, payloads[..i + 1], events[..i + 1]);
  }

  /** The frames carry these payloads of these events, and then [DONE]. */
  predicate CarriesAll(decode: Decoder, frames: seq<Framed>, payloads: seq<string>, events: seq<Event>) {
    && Carries(decode, payloads, events) && |frames| == |payloads| + 1
    && (forall h :: 0 <= h < |frames| ==> WellFramed(frames[h]))
    && (forall h :: 0 <= h < |payloads| ==> Payload(frames[h]) == payloads[h])
    && TrimSpace(Payload(frames[|payloads|])) == "[DONE]"
  }

  lemma FramedEventsArrive(callback: Callback, decode: Decoder, describe: Error -> string, frames: seq<Framed>, payloads: seq<string>, events: seq<Event>, tail: string) returns (m: nat)
    requires CarriesAll(decode, frames, payloads, events)
    ensures m <= |events|
    ensures var p := Parse(Wire(frames) + tail, Reaction(callback, decode, describe));
            && Decoded(decode, p.delivered) == events[..m]
            && ((m == |events| && p.end == Some(EndDone)) || callback(events[..m]).Some?)
  {
    m := EventsReplay(callback, decode, describe, frames, payloads, events, 0);
    assert frames[0..] == frames && payloads[..0] == [];
    RoundTrip(frames, [], tail, Reaction(callback, decode, describe));
    CarriesPrefix(decode, payloads, events, m);
    DecodedCarries(decode, payloads[..m], events[..m]);
  }

  lemma CarriesPrefix(decode: Decoder, payloads: seq<string>, events: seq<Event>, m: nat)
    requires Carries(decode, payloads, events) && m <= |payloads|
    ensures Carries(decode, payloads[..m], events[..m])
  {
  }

  /** What comes after the callback's refusal, or how the run would have ended, makes no difference to the body. */
  lemma RefusalSettles(codec: Codec, events: seq<Event>, m: nat, end: Handler.End, other: Handler.End, includeUsage: bool)
    requires m <= |events| && CallbackError(codec, events[..m]).Some?
    ensures StreamFrames(codec, events[..m], end, includeUsage) == StreamFrames(codec, events, other, includeUsage)
    ensures FinalUsage(codec, events[..m]) == FinalUsage(codec, events)
  {
    StopStays(codec, events, m);
    SameVerdict(codec, events, m, end, other);
  }

  lemma StopStays(codec: Codec, events: seq<Event>, m: nat)
    requires m <= |events| && Cut(codec, events[..m]) < m
    ensures var k := Cut(codec, events);
            k < m && Cut(codec, events[..m]) == k && events[..m][k] == events[k] && events[..m][..k] == events[..k]
  {
    CutOfPrefix(codec, events, m);
    PrefixOfPrefix(events, m, Cut(codec, events[..m]));
  }

  lemma SameVerdict(codec: Codec, events: seq<Event>, m: nat, end: Handler.End, other: Handler.End)
    requires m <= |events|
    requires var k := Cut(codec, events);
             k < m && Cut(codec, events[..m]) == k && events[..m][k] == events[k] && events[..m][..k] == events[..k]
    ensures Verdict(codec, events[..m], end) == Verdict(codec, events, other)
    ensures FinalUsage(codec, events[..m]) == FinalUsage(codec, events)
  {
  }

  /** Events that arrive framed in whatever way, followed by [DONE] and anything at all, are answered exactly as the
      event run itself. */
  lemma FramedEventsAreAnswered(codec: Codec, decode: Decoder, describe: Error -> string, frames: seq<Framed>, payloads: seq<string>, events: seq<Event>, tail: string, includeUsage: bool)
    requires CarriesAll(decode, frames, payloads, events)
    ensures var p := Parse(Wire(frames) + tail, Reaction(Streaming(codec), decode, describe));
            && StreamFrames(codec, Decoded(decode, p.delivered), EndOf(p.end), includeUsage) == StreamFrames(codec, events, SawDone, includeUsage)
            && FinalUsage(codec, Decoded(decode, p.delivered)) == FinalUsage(codec, events)
  {
    var m := FramedEventsArrive(Streaming(codec), decode, describe, frames, payloads, events, tail);
    if CallbackError(codec, events[..m]).Some? {
      var p := Parse(Wire(frames) + tail, Reaction(Streaming(codec), decode, describe));
      RefusalSettles(codec, events, m, EndOf(p.end), SawDone, includeUsage);
    } else {
      assert events[..m] == events;
    }
  }

  /** The single answer likewise. */
  lemma FramedEventsAreAnsweredOnce(codec: Codec, decode: Decoder, describe: Error -> string, frames: seq<Framed>, payloads: seq<string>, events: seq<Event>, tail: string)
    requires CarriesAll(decode, frames, payloads, events)
    ensures var p := Parse(Wire(frames) + tail, Reaction(Collecting(codec), decode, describe));
            NonStreamAnswer(codec, Decoded(decode, p.delivered), EndOf(p.end)) == NonStreamAnswer(codec, events, SawDone)
  {
    var m := FramedEventsArrive(Collecting(codec), decode, describe, frames, payloads, events, tail);
    if AnswerError(codec, events[..m]).Some? {
      var p := Parse(Wire(frames) + tail, Reaction(Collecting(codec), decode, describe));
      RejectionSettles(codec, events, m, EndOf(p.end), SawDone);
    } else {
      assert events[..m] == events;
    }
  }

  lemma RejectionSettles(codec: Codec, events: seq<Event>, m: nat, end: Handler.End, other: Handler.End)
    requires m <= |events| && AnswerError(codec, events[..m]).Some?
    ensures NonStreamAnswer(codec, events[..m], end) == NonStreamAnswer(codec, events, other)
  {
    FirstFaultStays(codec, events, m);
    AnswerByFault(codec, events[..m], end);
    AnswerByFault(codec, events, other);
  }

  lemma FirstFaultStays(codec: Codec, events: seq<Event>, m: nat)
    requires m <= |events| && AnswerError(codec, events[..m]).Some?
    ensures FirstFault(codec, events[..m]).Some? && FirstFault(codec, events) == FirstFault(codec, events[..m])
  {
    StopStays(codec, events, m);
    assert events[..m][m - 1] == events[m - 1];
    FirstFaultKept(codec, events, m, Cut(codec, events));
  }

  lemma FirstFaultKept(codec: Codec, events: seq<Event>, m: nat, k: nat)
    requires k < m <= |events| && Cut(codec, events) == k && Cut(codec, events[..m]) == k && events[..m][k] == events[k]
    requires Fault(codec, events[k]).None? && k < m - 1 ==> events[m - 1].kind != FinishKind
    requires Fault(codec, events[k]).Some? || (k < m - 1 && Fault(codec, events[m - 1]).Some?)
    ensures FirstFault(codec, events[..m]).Some? && FirstFault(codec, events) == FirstFault(codec, events[..m])
  {
    if Fault(codec, events[k]).None? {
      LateFaultStays(codec, events, m, k + 1);
    }
  }

  lemma LateFaultStays(codec: Codec, events: seq<Event>, m: nat, i: nat)
    requires i < m <= |events| && events[m - 1].kind != FinishKind && Fault(codec, events[m - 1]).Some?
    ensures LateFault(codec, events[..m][i..]).Some? && LateFault(codec, events[i..]) == LateFault(codec, events[..m][i..])
  {
    assert events[..m][i..] + events[m..] == events[i..];
    LastIsFault(codec, events[..m][i..]);
    LateFaultAppend(codec, events[..m][i..], events[m..]);
  }

  lemma {:induction false} LastIsFault(codec: Codec, events: seq<Event>)
    requires events != [] && events[|events| - 1].kind != FinishKind && Fault(codec, events[|events| - 1]).Some?
    ensures LateFault(codec, events).Some?
  {
    if |events| > 1 {
      LastIsFault(codec, events[1..]);
    }
  }

  lemma {:induction false} LateFaultAppend(codec: Codec, a: seq<Event>, b: seq<Event>)
    requires LateFault(codec, a).Some?
    ensures LateFault(codec, a + b) == LateFault(codec, a)
  {
    assert (a + b)[1..] == a[1..] + b;
    if a[0].kind == FinishKind || Fault(codec, a[0]).None? {
      LateFaultAppend(codec, a[1..], b);
    }
  }

  /** On the wire too, a run streamed to completion gives the same answer unstreamed exactly when it is quiet after
      its finish, and a run answered unstreamed always streams to completion. */
  lemma ResponsesAgree(codec: Codec, decode: Decoder, describe: Error -> string, frames: seq<Framed>, payloads: seq<string>, events: seq<Event>, tail: string)
    requires CarriesAll(decode, frames, payloads, events)
    ensures var p := Parse(Wire(frames) + tail, Reaction(Streaming(codec), decode, describe));
            var q := Parse(Wire(frames) + tail, Reaction(Collecting(codec), decode, describe));
            var v := Read(StreamFrames(codec, Decoded(decode, p.delivered), EndOf(p.end), true));
            var answer := NonStreamAnswer(codec, Decoded(decode, q.delivered), EndOf(q.end));
            && (answer.Answer? ==> v.finish.Some?)
            && (v.finish.Some? ==> (SameAnswer(v, answer) <==> Quiet(codec, events, SawDone)))
  {
    FramedEventsAreAnswered(codec, decode, describe, frames, payloads, events, tail, true);
    FramedEventsAreAnsweredOnce(codec, decode, describe, frames, payloads, events, tail);
    SinksAgree(codec, events, SawDone);
  }

  // ---------------------------------------------------------------- a payload that does not decode

  /** The frames carry payloads of these events, and then one that does not decode. */
  predicate CarriesBroken(decode: Decoder, frames: seq<Framed>, payloads: seq<string>, events: seq<Event>, message: string) {
    && Carries(decode, payloads, events) && |payloads| < |frames|
    && (forall h :: 0 <= h < |frames| ==> WellFramed(frames[h]))
    && (forall h :: 0 <= h < |payloads| ==> Payload(frames[h]) == payloads[h])
    && Carried(Payload(frames[|payloads|])) && decode(Payload(frames[|payloads|])) == Err(message)
  }

  lemma BrokenStops(decode: Decoder, payloads: seq<string>, events: seq<Event>, bad: string, message: string, callback: Callback, describe: Error -> string)
    requires Carries(decode, payloads, events) && decode(bad) == Err(message)
    ensures Decoded(decode, payloads + [bad]) == events
    ensures Reaction(callback, decode, describe)(payloads + [bad]) == Some(message)
  {
    var all := payloads + [bad];
    assert all[..|all| - 1] == payloads && all[|all| - 1] == bad;
    DecodedCarries(decode, payloads, events);
  }

  /** A replay that stopped with its first m events read: at the broken payload, or at an event the callback refuses. */
  ghost predicate Breaks(callback: Callback, decode: Decoder, events: seq<Event>, message: string, delivered: seq<string>, end: EndKind, m: nat) {
    && m <= |events| && Decoded(decode, delivered) == events[..m]
    && ((m == |events| && end == EndError(ParseError.Rejected(message))) || (callback(events[..m]).Some? && end.EndError?))
  }

  lemma {:induction false} BrokenReplay(callback: Callback, decode: Decoder, describe: Error -> string, frames: seq<Framed>, payloads: seq<string>, events: seq<Event>, message: string, i: nat) returns (m: nat)
    requires CarriesBroken(decode, frames, payloads, events, message) && i <= |payloads|
    ensures var (delivered, end) := Replay(frames[i..], payloads[..i], Reaction(callback, decode, describe));
            Breaks(callback, decode, events, message, delivered, end, m)
    decreases |payloads| - i
  {
    ReplayNext(frames, i, payloads[..i], Reaction(callback, decode, describe));
    if i == |payloads| {
      m := i;
      assert payloads[..i] == payloads && events[..i] == events;
      BrokenStops(decode, payloads, events, Payload(frames[i]), message, callback, describe);
    } else {
      TakeNext(payloads, i);
      ReactionAt(callback, decode, describe, payloads, events, i);
      if callback(events[..i + 1]).None? {
        m := BrokenReplay(callback, decode, describe, frames, payloads, events, message, i + 1);
      } else {
        m := i + 1;
        CarriesPrefix(decode, payloads, events, m);
        DecodedCarries(decode, payloads[..m], events[..m]);
      }
    }
  }

  /** A replay that ends before its input is the parse, whatever follows. */
  lemma ReplayIsParse(frames: seq<Framed>, tail: string, react: React)
    requires (forall h :: 0 <= h < |frames| ==> WellFramed(frames[h])) && Replay(frames, [], react).1 != EndEof
    ensures var (delivered, end) := Replay(frames, [], react);
            Parse(Wire(frames) + tail, react) == Parser([], 0, delivered, Some(end))
  {
    RoundTrip(frames, [], tail, react);
  }

  lemma BrokenFromStart(callback: Callback, decode: Decoder, describe: Error -> string, frames: seq<Framed>, payloads: seq<string>, events: seq<Event>, message: string) returns (m: nat)
    requires CarriesBroken(decode, frames, payloads, events, message)
    ensures forall h :: 0 <= h < |frames| ==> WellFramed(frames[h])
    ensures var (delivered, end) := Replay(frames, [], Reaction(callback, decode, describe));
            end.EndError? && Breaks(callback, decode, events, message, delivered, end, m)
  {
    m := BrokenReplay(callback, decode, describe, frames, payloads, events, message, 0);
    assert frames[0..] == frames && payloads[..0] == [];
  }

  lemma BrokenArrives(callback: Callback, decode: Decoder, describe: Error -> string, frames: seq<Framed>, payloads: seq<string>, events: seq<Event>, message: string, tail: string) returns (m: nat)
    requires CarriesBroken(decode, frames, payloads, events, message)
    ensures var p := Parse(Wire(frames) + tail, Reaction(callback, decode, describe));
            && p.end.Some? && p.end.value.EndError? && Breaks(callback, decode, events, message, p.delivered, p.end.value, m)
  {
    m := BrokenFromStart(callback, decode, describe, frames, payloads, events, message);
    ReplayIsParse(frames, tail, Reaction(callback, decode, describe));
  }

  lemma BreakSettles(codec: Codec, decode: Decoder, events: seq<Event>, message: string, delivered: seq<string>, end: EndKind, m: nat, includeUsage: bool)
    requires Breaks(Streaming(codec), decode, events, message, delivered, end, m)
    ensures StreamFrames(codec, Decoded(decode, delivered), EndOf(Some(end)), includeUsage) == StreamFrames(codec, events, ReadFailed(message), includeUsage)
  {
    if CallbackError(codec, events[..m]).Some? {
      RefusalSettles(codec, events, m, EndOf(Some(end)), ReadFailed(message), includeUsage);
    } else {
      assert events[..m] == events;
    }
  }

  /** Then the client is answered as if the run had broken off there with the decoder's message. */
  lemma BrokenPayloadIsAnswered(codec: Codec, decode: Decoder, describe: Error -> string, frames: seq<Framed>, payloads: seq<string>, events: seq<Event>, message: string, tail: string, includeUsage: bool)
    requires CarriesBroken(decode, frames, payloads, events, message)
    ensures var p := Parse(Wire(frames) + tail, Reaction(Streaming(codec), decode, describe));
            StreamFrames(codec, Decoded(decode, p.delivered), EndOf(p.end), includeUsage) == StreamFrames(codec, events, ReadFailed(message), includeUsage)
  {
    var m := BrokenArrives(Streaming(codec), decode, describe, frames, payloads, events, message, tail);
    var p := Parse(Wire(frames) + tail, Reaction(Streaming(codec), decode, describe));
    BreakSettles(codec, decode, events, message, p.delivered, p.end.value, m, includeUsage);
  }

  lemma BreakSettlesOnce(codec: Codec, decode: Decoder, events: seq<Event>, message: string, delivered: seq<string>, end: EndKind, m: nat)
    requires Breaks(Collecting(codec), decode, events, message, delivered, end, m)
    ensures NonStreamAnswer(codec, Decoded(decode, delivered), EndOf(Some(end))) == NonStreamAnswer(codec, events, ReadFailed(message))
  {
    if AnswerError(codec, events[..m]).Some? {
      RejectionSettles(codec, events, m, EndOf(Some(end)), ReadFailed(message));
    } else {
      assert events[..m] == events;
    }
  }

  /** The single answer likewise. */
  lemma BrokenPayloadIsAnsweredOnce(codec: Codec, decode: Decoder, describe: Error -> string, frames: seq<Framed>, payloads: seq<string>, events: seq<Event>, message: string, tail: string)
    requires CarriesBroken(decode, frames, payloads, events, message)
    ensures var p := Parse(Wire(frames) + tail, Reaction(Collecting(codec), decode, describe));
            NonStreamAnswer(codec, Decoded(decode, p.delivered), EndOf(p.end)) == NonStreamAnswer(codec, events, ReadFailed(message))
  {
    var m := BrokenArrives(Collecting(codec), decode, describe, frames, payloads, events, message, tail);
    var p := Parse(Wire(frames) + tail, Reaction(Collecting(codec), decode, describe));
    BreakSettlesOnce(codec, decode, events, message, p.delivered, p.end.value, m);
  }
}
