/** Every body of the upstream, line by line, and the response to it. */
module StreamBodies {
  import opened Base
  import opened Events
  import opened Handler
  import opened StreamLaws
  import opened Sse
  import opened SseLaws
  import opened SseLines
  import opened StreamGateway

  /** How the event run ended for the sinks. */
  function HowItEnded(end: EndKind): Handler.End {
    match end
    case EndEof => Handler.Eof
    case EndDone => SawDone
    case EndError(LineTooLong) => ReadFailed("sse line exceeds 33554432 bytes")
    case EndError(EventTooLong) => ReadFailed("sse event exceeds 33554432 bytes")
    case EndError(Rejected(m)) => ReadFailed(m)
    case EndError(ReadError(m)) => ReadFailed(m)
  }

  /** The streamed response to any body is that to the events its lines hand over, up to a refusal or a limit. */
  lemma BodyIsAnswered(codec: Codec, decode: Decoder, describe: Error -> string, lines: seq<Line>, includeUsage: bool)
    requires AllWellFormed(lines)
    ensures var react := Reaction(Streaming(codec), decode, describe);
            var p, got := Parse(Bytes(lines), react), Played(lines, [], [], react);
            && got.end.Some?
            && StreamFrames(codec, Decoded(decode, p.delivered), EndOf(p.end), includeUsage) ==
               StreamFrames(codec, Decoded(decode, got.delivered), HowItEnded(got.end.value), includeUsage)
  {
    BodyIsPlayed(lines, Reaction(Streaming(codec), decode, describe));
    PlayedEnds(lines, [], [], Reaction(Streaming(codec), decode, describe));
  }

  /** And so is the single answer. */
  lemma BodyIsAnsweredOnce(codec: Codec, decode: Decoder, describe: Error -> string, lines: seq<Line>)
    requires AllWellFormed(lines)
    ensures var react := Reaction(Collecting(codec), decode, describe);
            var p, got := Parse(Bytes(lines), react), Played(lines, [], [], react);
            && got.end.Some?
            && NonStreamAnswer(codec, Decoded(decode, p.delivered), EndOf(p.end)) ==
               NonStreamAnswer(codec, Decoded(decode, got.delivered), HowItEnded(got.end.value))
  {
    BodyIsPlayed(lines, Reaction(Collecting(codec), decode, describe));
    PlayedEnds(lines, [], [], Reaction(Collecting(codec), decode, describe));
  }

  lemma {:induction false} PlayedEnds(lines: seq<Line>, pending: seq<string>, delivered: seq<string>, react: React)
    ensures Played(lines, pending, delivered, react).end.Some?
    decreases |lines|
  {
    if lines != [] {
      var out := Handed(pending, delivered, react);
      match lines[0].body
      case Ignored(_) => PlayedEnds(lines[1..], pending, delivered, react);
      case Data(text, _) => PlayedEnds(lines[1..], pending + [text], delivered, react);
      case Blank => PlayedEnds(lines[1..], [], out.delivered, react);
      case Bare(text) => PlayedEnds(lines[1..], [], Handed([TrimSpace(text)], out.delivered, react).delivered, react);
    }
  }

  // ---------------------------------------------------------------- a body of bare lines

  function Bares(payloads: seq<string>): seq<Line> {
    seq(|payloads|, i requires 0 <= i < |payloads| => Line(Bare(payloads[i]), false))
  }

  /** Each line is one of these events as bare JSON. */
  predicate CarriesBare(decode: Decoder, payloads: seq<string>, events: seq<Event>) {
    && Carries(decode, payloads, events)
    && forall i :: 0 <= i < |payloads| ==> WellFormed(Bare(payloads[i])) && TrimSpace(payloads[i]) == payloads[i] && |payloads[i]| <= 33_554_432
  }

  lemma BareNext(payloads: seq<string>, i: nat, delivered: seq<string>, react: React)
    requires i < |payloads| && TrimSpace(payloads[i]) == payloads[i] && Carried(payloads[i]) && |payloads[i]| <= 33_554_432
    ensures var all := delivered + [payloads[i]];
            Played(Bares(payloads)[i..], [], delivered, react) ==
            match react(all)
            case Some(e) => Got(all, Some(EndError(ParseError.Rejected(e))))
            case None => Played(Bares(payloads)[i + 1..], [], all, react)
  {
    assert Bares(payloads)[i..][1..] == Bares(payloads)[i + 1..] && Bares(payloads)[i..][0] == Line(Bare(payloads[i]), false);
    assert Joined([payloads[i]]) == payloads[i];
  }

  /** The parser delivers all of them, or stops at the first one the callback refuses. */
  lemma {:induction false} BaresArrive(callback: Callback, decode: Decoder, describe: Error -> string, payloads: seq<string>, events: seq<Event>, i: nat) returns (m: nat)
    requires CarriesBare(decode, payloads, events) && i <= |payloads|
    ensures i <= m <= |payloads|
    ensures var got := Played(Bares(payloads)[i..], [], payloads[..i], Reaction(callback, decode, describe));
            && got.delivered == payloads[..m]
            && ((m == |payloads| && got.end == Some(EndEof)) || callback(events[..m]).Some?)
    decreases |payloads| - i
  {
    m := i;
    if i < |payloads| {
      BareNext(payloads, i, payloads[..i], Reaction(callback, decode, describe));
      TakeNext(payloads, i);
      ReactionAt(callback, decode, describe, payloads, events, i);
      m := i + 1;
      if callback(events[..i + 1]).None? {
        m := BaresArrive(callback, decode, describe, payloads, events, i + 1);
      }
    } else {
      assert Bares(payloads)[i..] == [];
    }
  }

  lemma BareBody(callback: Callback, decode: Decoder, describe: Error -> string, payloads: seq<string>, events: seq<Event>) returns (m: nat)
    requires CarriesBare(decode, payloads, events)
    ensures m <= |events|
    ensures var p := Parse(Bytes(Bares(payloads)), Reaction(callback, decode, describe));
            && Decoded(decode, p.delivered) == events[..m]
            && ((m == |events| && p.end == Some(EndEof)) || callback(events[..m]).Some?)
  {
    m := BaresArrive(callback, decode, describe, payloads, events, 0);
    assert Bares(payloads)[0..] == Bares(payloads) && payloads[..0] == [];
    BodyIsPlayed(Bares(payloads), Reaction(callback, decode, describe));
    CarriesPrefix(decode, payloads, events, m);
    DecodedCarries(decode, payloads[..m], events[..m]);
  }

  /** Events that arrive as bare JSON lines, one a line, are answered exactly as the event run that then breaks off. */
  lemma BareEventsAreAnswered(codec: Codec, decode: Decoder, describe: Error -> string, payloads: seq<string>, events: seq<Event>, includeUsage: bool)
    requires CarriesBare(decode, payloads, events)
    ensures var p := Parse(Bytes(Bares(payloads)), Reaction(Streaming(codec), decode, describe));
            StreamFrames(codec, Decoded(decode, p.delivered), EndOf(p.end), includeUsage) == StreamFrames(codec, events, Handler.Eof, includeUsage)
  {
    var m := BareBody(Streaming(codec), decode, describe, payloads, events);
    if CallbackError(codec, events[..m]).Some? {
      var p := Parse(Bytes(Bares(payloads)), Reaction(Streaming(codec), decode, describe));
      RefusalSettles(codec, events, m, EndOf(p.end), Handler.Eof, includeUsage);
    } else {
      assert events[..m] == events;
    }
  }

  /** The single answer likewise. */
  lemma BareEventsAreAnsweredOnce(codec: Codec, decode: Decoder, describe: Error -> string, payloads: seq<string>, events: seq<Event>)
    requires CarriesBare(decode, payloads, events)
    ensures var p := Parse(Bytes(Bares(payloads)), Reaction(Collecting(codec), decode, describe));
            NonStreamAnswer(codec, Decoded(decode, p.delivered), EndOf(p.end)) == NonStreamAnswer(codec, events, Handler.Eof)
  {
    var m := BareBody(Collecting(codec), decode, describe, payloads, events);
    if AnswerError(codec, events[..m]).Some? {
      var p := Parse(Bytes(Bares(payloads)), Reaction(Collecting(codec), decode, describe));
      RejectionSettles(codec, events, m, EndOf(p.end), Handler.Eof);
    } else {
      assert events[..m] == events;
    }
  }
}
