/** When the two folds of a Responses stream agree: bodies that name their own types, and what orphans can do. */
module ZenLaws {
  import opened Base
  import opened ZenResponses

  // ---------------------------------------------------------------- payloads that carry their own type

  predicate CarriesType(lib: Lib, data: seq<string>) {
    var payload := JoinLines(data);
    && (TrimSpace(payload) != "" && TrimSpace(payload) != "[DONE]" && lib.decode(payload).Some? ==>
          lib.decode(payload).value.typ != "")
  }

  predicate TypedSoFar(lib: Lib, lines: seq<string>) {
    if lines == [] then true
    else
      var init := lines[..|lines| - 1];
      TypedSoFar(lib, init)
      && (TrimSpace(DropCr(lines[|lines| - 1])) == "" ==> CarriesType(lib, ScanLines(lib, init, true).data))
  }

  /** Every payload of this body that decodes at all has a type of its own. */
  predicate OwnTypes(lib: Lib, lines: seq<string>) {
    TypedSoFar(lib, lines) && CarriesType(lib, ScanLines(lib, lines, true).data)
  }

  lemma {:induction false} TypedHasNoOrphans(lib: Lib, lines: seq<string>)
    requires TypedSoFar(lib, lines)
    ensures NoOrphans(lib, lines)
  {
    if lines != [] {
      TypedHasNoOrphans(lib, lines[..|lines| - 1]);
    }
  }

  /** On a body whose payloads carry their own types the emitter and the aggregator agree. */
  lemma OwnTypesSuffice(lib: Lib, lines: seq<string>)
    requires OwnTypes(lib, lines)
    ensures AllNamed(lib, lines) && SameOutcome(lib, lines)
  {
    TypedHasNoOrphans(lib, lines);
    EmitterAgreesWithAggregator(lib, lines);
  }

  /** A client of the emitter and a caller of the aggregator learn the same. */
  predicate SameOutcome(lib: Lib, lines: seq<string>) {
    var out := Emitted(lib, Feed(lib, lines, true));
    var view := Read(out.chunks);
    match Aggregated(lib, Feed(lib, lines, false))
    case Ok(p) => out.error.None? && view == View(Concat(p.deltas), Indexed(p.toolCalls), Some(p.finish), p.usage, true)
    case Err(e) => out.error == Some(e) && !view.done && view.finish.None?
  }

  // ---------------------------------------------------------------- what orphans change

  /** The aggregator ignores some of the events the emitter acts on, and no others. */
  predicate Masks(a: seq<Typed>, e: seq<Typed>) {
    |a| == |e| && forall i :: 0 <= i < |a| ==> a[i] == e[i] || a[i] == (Ignored, e[i].1)
  }

  /** Event i is an orphan: the two folds were fed it under different types. */
  predicate Differs(a: seq<Typed>, e: seq<Typed>, i: int) {
    0 <= i < |a| == |e| && a[i] != e[i]
  }

  lemma {:induction false} ScansMask(lib: Lib, lines: seq<string>)
    ensures var a, e := ScanLines(lib, lines, false), ScanLines(lib, lines, true);
            Masks(a.fed, e.fed) && a.data == e.data && a.sawDone == e.sawDone
  {
    if lines != [] {
      ScansMask(lib, lines[..|lines| - 1]);
      DispatchMasks(lib, ScanLines(lib, lines[..|lines| - 1], false), ScanLines(lib, lines[..|lines| - 1], true));
    }
  }

  lemma DispatchMasks(lib: Lib, a: Scan, e: Scan)
    requires Masks(a.fed, e.fed) && a.data == e.data && a.sawDone == e.sawDone
    ensures var a', e' := AggregatorDispatch(lib, a), EmitterDispatch(lib, e);
            Masks(a'.fed, e'.fed) && a'.data == e'.data && a'.sawDone == e'.sawDone
  {
    KnownNames();
  }

  lemma FeedsMask(lib: Lib, lines: seq<string>)
    ensures Masks(Feed(lib, lines, false).fed, Feed(lib, lines, true).fed)
    ensures Feed(lib, lines, false).sawDone == Feed(lib, lines, true).sawDone
  {
    ScansMask(lib, lines);
    DispatchMasks(lib, ScanLines(lib, lines, false), ScanLines(lib, lines, true));
  }

  predicate Silent(e: Typed) { TextOf(e) == "" }

  predicate NoCall(e: Typed) { !IsCall(e) }

  predicate NoFailure(e: Typed) { e.0 != Failed }

  predicate NoEnd(e: Typed) { e.0 != Completed && e.0 != Failed }

  /** It adds neither text nor a call nor a failure. */
  predicate Unheard(e: Typed) {
    Silent(e) && NoCall(e) && NoFailure(e)
  }

  ghost predicate AllOrphans(a: seq<Typed>, e: seq<Typed>, ok: Typed -> bool) {
    forall i :: Differs(a, e, i) ==> ok(e[i])
  }

  lemma OrphansButLast(a: seq<Typed>, e: seq<Typed>, ok: Typed -> bool)
    requires Masks(a, e) && a != []
    ensures var m := |a| - 1;
            && Masks(a[..m], e[..m])
            && (AllOrphans(a, e, ok) <==> AllOrphans(a[..m], e[..m], ok) && (a[m] != e[m] ==> ok(e[m])))
  {
    var m := |a| - 1;
    if AllOrphans(a, e, ok) {
      forall i | Differs(a[..m], e[..m], i) ensures ok(e[..m][i]) {
        assert Differs(a, e, i);
      }
      assert a[m] != e[m] ==> Differs(a, e, m);
    } else {
      var i :| Differs(a, e, i) && !ok(e[i]);
      assert i < m ==> Differs(a[..m], e[..m], i);
    }
  }

  function TextLength(fed: seq<Typed>): nat {
    if fed == [] then 0 else TextLength(fed[..|fed| - 1]) + |TextOf(fed[|fed| - 1])|
  }

  lemma {:induction false} ConcatLength(fed: seq<Typed>)
    ensures |Concat(Texts(fed))| == TextLength(fed)
  {
    if fed != [] {
      var init, last := fed[..|fed| - 1], TextOf(fed[|fed| - 1]);
      ConcatLength(init);
      if last != "" {
        ConcatNext(Texts(init), last);
      } else {
        assert Texts(fed) == Texts(init);
      }
    }
  }

  lemma {:induction false} MaskedLength(a: seq<Typed>, e: seq<Typed>)
    requires Masks(a, e)
    ensures TextLength(a) <= TextLength(e)
    ensures !AllOrphans(a, e, Silent) ==> TextLength(a) < TextLength(e)
  {
    if a != [] {
      OrphansButLast(a, e, Silent);
      MaskedLength(a[..|a| - 1], e[..|e| - 1]);
    }
  }

  lemma {:induction false} MaskedTexts(a: seq<Typed>, e: seq<Typed>)
    requires Masks(a, e) && AllOrphans(a, e, Silent)
    ensures Texts(a) == Texts(e)
  {
    if a != [] {
      OrphansButLast(a, e, Silent);
      MaskedTexts(a[..|a| - 1], e[..|e| - 1]);
    }
  }

  lemma {:induction false} MaskedCalls(a: seq<Typed>, e: seq<Typed>)
    requires Masks(a, e)
    ensures if AllOrphans(a, e, NoCall) then Calls(a) == Calls(e) else |Calls(a)| < |Calls(e)|
    ensures |Calls(a)| <= |Calls(e)|
  {
    if a != [] {
      var m := |a| - 1;
      OrphansButLast(a, e, NoCall);
      MaskedCalls(a[..m], e[..m]);
      assert a[m] != e[m] ==> !IsCall(a[m]);
    }
  }

  lemma {:induction false} MaskedFailure(a: seq<Typed>, e: seq<Typed>)
    requires Masks(a, e)
    ensures AllOrphans(a, e, NoFailure) ==> Failure(a) == Failure(e)
    ensures !AllOrphans(a, e, NoFailure) ==> Failure(e).Some?
    ensures Failure(a).Some? ==> Failure(e).Some?
  {
    if a != [] {
      var m := |a| - 1;
      OrphansButLast(a, e, NoFailure);
      MaskedFailure(a[..m], e[..m]);
    }
  }

  lemma MaskedEnds(a: seq<Typed>, e: seq<Typed>)
    requires Masks(a, e)
    ensures Terminal(e) <==> Terminal(a) || !AllOrphans(a, e, NoEnd)
  {
    if Terminal(a) {
      var i :| 0 <= i < |a| && (a[i].0 == Completed || a[i].0 == Failed);
      assert e[i] == a[i];
    }
    if !AllOrphans(a, e, NoEnd) {
      var i :| Differs(a, e, i) && !NoEnd(e[i]);
      assert e[i].0 == Completed || e[i].0 == Failed;
    }
    if Terminal(e) && !Terminal(a) {
      var i :| 0 <= i < |e| && (e[i].0 == Completed || e[i].0 == Failed);
      assert Differs(a, e, i) && !NoEnd(e[i]);
    }
  }

  predicate Closes(e: Typed) { e.0 == Completed }

  predicate CarriesUsage(e: Typed) { e.0 == Completed && e.1.response.Some? && e.1.response.value.usage.Some? }

  predicate Fails(e: Typed) { e.0 == Failed }

  /** Event i is the last of this kind. */
  ghost predicate LastOf(fed: seq<Typed>, i: int, kind: Typed -> bool) {
    0 <= i < |fed| && kind(fed[i]) && forall j :: i < j < |fed| ==> !kind(fed[j])
  }

  function FinishAt(lib: Lib, fed: seq<Typed>, i: nat): Finish
    requires i < |fed|
  {
    if Calls(fed[..i]) != [] then ToolCalls else MapResponsesFinish(lib, ReasonOf(fed[i].1))
  }

  /** If the last completion is an orphan, it repeats what the last one the aggregator saw said. */
  ghost predicate FinishKept(lib: Lib, a: seq<Typed>, e: seq<Typed>) {
    forall i :: LastOf(e, i, Closes) && Differs(a, e, i) ==> FinishAt(lib, e, i) == FinishOf(lib, a)
  }

  /** Likewise the last one with usage, and the last failure. */
  ghost predicate UsageKept(a: seq<Typed>, e: seq<Typed>) {
    forall i :: LastOf(e, i, CarriesUsage) && Differs(a, e, i) ==> UsageOf(a) == Some(UsageFrom(e[i].1.response.value.usage.value))
  }

  ghost predicate FailureKept(a: seq<Typed>, e: seq<Typed>) {
    forall i :: LastOf(e, i, Fails) && Differs(a, e, i) ==> Failure(a) == Some(UpstreamFailed(e[i].1.error))
  }

  /** Which orphans go unnoticed. When the aggregator succeeds: those that add no text, no call and no failure, and
      neither end the response last nor report usage last, unless they repeat what was said. When it ends early: those
      that do not end the response. When it fails: those that do not fail last, unless they repeat the failure. */
  ghost predicate OrphansUnnoticed(lib: Lib, a: Scan, e: Scan) {
    match Problem(a)
    case None => AllOrphans(a.fed, e.fed, Unheard) && FinishKept(lib, a.fed, e.fed) && UsageKept(a.fed, e.fed)
    case Some(Incomplete(_)) => AllOrphans(a.fed, e.fed, NoEnd)
    case Some(_) => FailureKept(a.fed, e.fed)
  }

  lemma LastOfInit(fed: seq<Typed>, kind: Typed -> bool)
    requires fed != [] && !kind(fed[|fed| - 1])
    ensures forall i :: LastOf(fed, i, kind) <==> LastOf(fed[..|fed| - 1], i, kind)
  {
    var init := fed[..|fed| - 1];
    forall i | LastOf(init, i, kind) ensures LastOf(fed, i, kind) {
      assert forall j :: i < j < |init| ==> fed[j] == init[j];
    }
    forall i | LastOf(fed, i, kind) ensures LastOf(init, i, kind) {
      assert forall j :: i < j < |init| ==> fed[j] == init[j];
    }
  }

  lemma {:induction false} FinishKeptExactly(lib: Lib, a: seq<Typed>, e: seq<Typed>)
    requires Masks(a, e) && AllOrphans(a, e, NoCall)
    ensures FinishOf(lib, a) == FinishOf(lib, e) <==> FinishKept(lib, a, e)
  {
    if a != [] {
      var m := |a| - 1;
      OrphansButLast(a, e, NoCall);
      if Closes(e[m]) {
        MaskedCalls(a[..m], e[..m]);
        assert LastOf(e, m, Closes);
        assert forall i :: LastOf(e, i, Closes) ==> i == m;
      } else {
        FinishKeptExactly(lib, a[..m], e[..m]);
        LastOfInit(e, Closes);
        KeptInit(lib, a, e);
      }
    }
  }

  lemma KeptInit(lib: Lib, a: seq<Typed>, e: seq<Typed>)
    requires Masks(a, e) && a != [] && !Closes(e[|e| - 1])
    requires forall i :: LastOf(e, i, Closes) <==> LastOf(e[..|e| - 1], i, Closes)
    ensures FinishKept(lib, a, e) <==> FinishKept(lib, a[..|a| - 1], e[..|e| - 1])
  {
    var m := |a| - 1;
    forall i: nat | i < m ensures FinishAt(lib, e, i) == FinishAt(lib, e[..m], i) {
      PrefixOfPrefix(e, m, i);
    }
    assert forall i :: 0 <= i < m ==> (Differs(a, e, i) <==> Differs(a[..m], e[..m], i));
  }

  lemma {:induction false} UsageKeptExactly(a: seq<Typed>, e: seq<Typed>)
    requires Masks(a, e)
    ensures UsageOf(a) == UsageOf(e) <==> UsageKept(a, e)
  {
    if a != [] {
      var m := |a| - 1;
      if CarriesUsage(e[m]) {
        assert LastOf(e, m, CarriesUsage);
        assert forall i :: LastOf(e, i, CarriesUsage) ==> i == m;
      } else {
        UsageKeptExactly(a[..m], e[..m]);
        UsageInit(a, e);
      }
    }
  }

  lemma UsageInit(a: seq<Typed>, e: seq<Typed>)
    requires Masks(a, e) && a != [] && !CarriesUsage(e[|e| - 1])
    ensures UsageOf(a) == UsageOf(a[..|a| - 1])
    ensures UsageKept(a, e) <==> UsageKept(a[..|a| - 1], e[..|e| - 1])
  {
    var m := |a| - 1;
    LastOfInit(e, CarriesUsage);
    assert forall i :: 0 <= i < m ==> (Differs(a, e, i) <==> Differs(a[..m], e[..m], i));
  }

  lemma {:induction false} FailureKeptExactly(a: seq<Typed>, e: seq<Typed>)
    requires Masks(a, e)
    ensures Failure(a) == Failure(e) <==> FailureKept(a, e)
  {
    if a != [] {
      var m := |a| - 1;
      assert forall i :: 0 <= i < m ==> (Differs(a, e, i) <==> Differs(a[..m], e[..m], i));
      if Fails(e[m]) {
        assert LastOf(e, m, Fails);
        assert forall i :: LastOf(e, i, Fails) ==> i == m;
      } else {
        FailureKeptExactly(a[..m], e[..m]);
        LastOfInit(e, Fails);
      }
    }
  }

  lemma UnheardParts(a: seq<Typed>, e: seq<Typed>)
    ensures AllOrphans(a, e, Unheard) <==>
            && AllOrphans(a, e, Silent) && AllOrphans(a, e, NoCall) && AllOrphans(a, e, NoFailure)
  {
    if AllOrphans(a, e, Silent) && AllOrphans(a, e, NoCall) && AllOrphans(a, e, NoFailure) {
      forall i | Differs(a, e, i) ensures Unheard(e[i]) {
      }
    }
    if AllOrphans(a, e, Unheard) {
      forall i | Differs(a, e, i) ensures TextOf(e[i]) == "" && !IsCall(e[i]) && e[i].0 != Failed {
        assert Unheard(e[i]);
      }
    }
  }

  /** The two outcomes agree, for every body, exactly when its orphans go unnoticed. */
  lemma OutcomesAgreeExactly(lib: Lib, lines: seq<string>)
    ensures SameOutcome(lib, lines) <==> OrphansUnnoticed(lib, Feed(lib, lines, false), Feed(lib, lines, true))
  {
    FeedsMask(lib, lines);
    OutcomeReadings(lib, lines);
    ReadingsAgree(lib, Feed(lib, lines, false), Feed(lib, lines, true));
  }

  predicate SameReadings(lib: Lib, a: Scan, e: Scan) {
    && Problem(e) == Problem(a)
    && (Problem(a).None? ==>
          && Concat(Texts(e.fed)) == Concat(Texts(a.fed)) && Indexed(Calls(e.fed)) == Indexed(Calls(a.fed))
          && FinishOf(lib, e.fed) == FinishOf(lib, a.fed) && UsageOf(e.fed) == UsageOf(a.fed))
  }

  lemma OutcomeReadings(lib: Lib, lines: seq<string>)
    ensures SameOutcome(lib, lines) <==> SameReadings(lib, Feed(lib, lines, false), Feed(lib, lines, true))
  {
    ReadEmitted(lib, Feed(lib, lines, true));
  }

  lemma ReadingsAgree(lib: Lib, a: Scan, e: Scan)
    requires Masks(a.fed, e.fed) && a.sawDone == e.sawDone
    ensures SameReadings(lib, a, e) <==> OrphansUnnoticed(lib, a, e)
  {
    MaskedFailure(a.fed, e.fed);
    MaskedEnds(a.fed, e.fed);
    FailureIsTerminal(e.fed);
    if Problem(a).None? {
      SuccessesAgree(lib, a.fed, e.fed);
      UnheardParts(a.fed, e.fed);
      UsageKeptExactly(a.fed, e.fed);
      if AllOrphans(a.fed, e.fed, NoCall) {
        FinishKeptExactly(lib, a.fed, e.fed);
      }
    } else {
      FailureKeptExactly(a.fed, e.fed);
      FailureIsUpstream(a.fed);
      FailureIsUpstream(e.fed);
    }
  }

  lemma SuccessesAgree(lib: Lib, a: seq<Typed>, e: seq<Typed>)
    requires Masks(a, e)
    ensures Concat(Texts(e)) == Concat(Texts(a)) <==> AllOrphans(a, e, Silent)
    ensures Indexed(Calls(e)) == Indexed(Calls(a)) <==> AllOrphans(a, e, NoCall)
  {
    if AllOrphans(a, e, Silent) {
      MaskedTexts(a, e);
    } else {
      MaskedLength(a, e);
      ConcatLength(a);
      ConcatLength(e);
    }
    MaskedCalls(a, e);
    IndexedLengths(Calls(a), Calls(e));
  }

  lemma IndexedLengths(a: seq<ToolCall>, e: seq<ToolCall>)
    ensures Indexed(a) == Indexed(e) ==> |a| == |e|
  {
    assert |Indexed(a)| == |a| && |Indexed(e)| == |e|;
  }

  lemma {:induction false} FailureIsUpstream(fed: seq<Typed>)
    ensures Failure(fed).Some? ==> Failure(fed).value.UpstreamFailed?
  {
    if fed != [] {
      FailureIsUpstream(fed[..|fed| - 1]);
    }
  }

  // ---------------------------------------------------------------- bodies that cannot be read to their end

  predicate EndsSilently(out: Emission) {
    out.error.None? && !Read(out.chunks).done
  }

  /** A stream ends with neither an error nor [DONE] exactly when its body could not be read to the end, and a caller
      is handed such a stream exactly when something was written before that. */
  lemma SilentEndExactly(lib: Lib, lines: seq<string>, scanError: bool)
    ensures var out := Translated(lib, lines, scanError);
            && (EndsSilently(out) <==> scanError)
            && (ReadySignal(out, scanError).None? && EndsSilently(out) <==> scanError && LiveChunks(lib, ScanLines(lib, lines, true).fed) != [])
  {
    ReadLive(lib, ScanLines(lib, lines, true).fed);
    ReadEmitted(lib, Feed(lib, lines, true));
  }

  // ---------------------------------------------------------------- a body with an orphan

  lemma KnownNames()
    ensures Classify("response.output_text.delta") == TextDelta && Classify("") == Ignored
    ensures Classify("response.completed") == Completed
  {
  }

  predicate Trimmed(s: string) {
    s != "" && !IsSpace(s[0]) && !IsSpace(s[|s| - 1])
  }

  lemma TrimmedStays(s: string)
    requires Trimmed(s)
    ensures DropCr(s) == s && TrimSpace(s) == s && TrimSpace(" " + s) == s
  {
    assert (" " + s)[1..] == s;
    assert TrimLeft(" " + s) == TrimLeft(s) == s;
  }

  /** Lines with these field names, cut behind the colon. */
  lemma DataLine(value: string)
    requires Trimmed(value)
    ensures var line := "data: " + value;
            Trimmed(line) && line[0] == 'd' && "data:" <= line && !("event:" <= line) && line[5..] == " " + value
  {
    var line := "data: " + value;
    assert line[|line| - 1] == value[|value| - 1];
  }

  lemma EventLine(value: string)
    requires Trimmed(value)
    ensures var line := "event: " + value;
            Trimmed(line) && line[0] == 'e' && "event:" <= line && line[6..] == " " + value
  {
    var line := "event: " + value;
    assert line[|line| - 1] == value[|value| - 1];
  }

  lemma ScanData(lib: Lib, s: Scan, value: string, emitter: bool)
    requires Trimmed(value)
    ensures ScanLine(lib, s, "data: " + value, emitter) == s.(data := s.data + [value])
  {
    DataLine(value);
    TrimmedStays(value);
    TrimmedStays("data: " + value);
  }

  lemma ScanEvent(lib: Lib, s: Scan, value: string, emitter: bool)
    requires Trimmed(value)
    ensures ScanLine(lib, s, "event: " + value, emitter) == s.(name := value)
  {
    EventLine(value);
    TrimmedStays(value);
    TrimmedStays("event: " + value);
  }

  lemma ScanBlank(lib: Lib, s: Scan, emitter: bool)
    ensures ScanLine(lib, s, "", emitter) == Dispatch(lib, s, emitter)
  {
  }

  lemma ScanNext(lib: Lib, lines: seq<string>, line: string, emitter: bool)
    ensures ScanLines(lib, lines + [line], emitter) == ScanLine(lib, ScanLines(lib, lines, emitter), line, emitter)
  {
    assert (lines + [line])[..|lines + [line]| - 1] == lines;
  }

  const TEXT_DELTA := "response.output_text.delta"

  /** A text without a type after an event: line, and a completion that names itself. */
  function OrphanBody(name: string, p: string, q: string): seq<string> {
    ["event: " + name, "data: " + p, "", "data: " + q]
  }

  predicate OrphanPayloads(lib: Lib, p: string, q: string) {
    && Trimmed(p) && Trimmed(q) && p != "[DONE]" && q != "[DONE]"
    && (match lib.decode(p) case Some(ev) => ev.typ == "" && ev.delta != "" case None => false)
    && (match lib.decode(q) case Some(ev) => ev.typ == "response.completed" case None => false)
  }

  /** The documented fallback to the event: field is the emitter's alone: on such a body it forwards the text, while
      the aggregator succeeds without it. */
  lemma AggregatorIgnoresEventName(lib: Lib, p: string, q: string)
    requires OrphanPayloads(lib, p, q)
    ensures var lines := OrphanBody(TEXT_DELTA, p, q);
            && Aggregated(lib, Feed(lib, lines, false)).Ok? && Aggregated(lib, Feed(lib, lines, false)).value.deltas == []
            && Emitted(lib, Feed(lib, lines, true)).error.None?
            && Read(Emitted(lib, Feed(lib, lines, true)).chunks).content == lib.decode(p).value.delta
  {
    KnownNames();
    OrphanScan(lib, TEXT_DELTA, p, q, false);
    OrphanScan(lib, TEXT_DELTA, p, q, true);
    OrphanOutcome(lib, Feed(lib, OrphanBody(TEXT_DELTA, p, q), false), Feed(lib, OrphanBody(TEXT_DELTA, p, q), true), lib.decode(p).value, lib.decode(q).value);
  }

  lemma OrphanOutcome(lib: Lib, a: Scan, e: Scan, ev: Event, last: Event)
    requires a.fed == [(Ignored, ev), (Completed, last)] && e.fed == [(TextDelta, ev), (Completed, last)] && ev.delta != ""
    ensures Aggregated(lib, a).Ok? && Aggregated(lib, a).value.deltas == []
    ensures Emitted(lib, e).error.None? && Read(Emitted(lib, e).chunks).content == ev.delta
  {
    TwoFed((Ignored, ev), (Completed, last));
    TwoFed((TextDelta, ev), (Completed, last));
    ReadEmitted(lib, e);
    ConcatNext([], ev.delta);
    assert [] + [ev.delta] == [ev.delta] && Concat([]) + ev.delta == ev.delta;
  }

  lemma OrphanScan(lib: Lib, name: string, p: string, q: string, emitter: bool)
    requires OrphanPayloads(lib, p, q) && Trimmed(name)
    ensures Feed(lib, OrphanBody(name, p, q), emitter).fed ==
            [(Classify(if emitter then name else ""), lib.decode(p).value), (Completed, lib.decode(q).value)]
  {
    KnownNames();
    OrphanLines(lib, name, p, q, emitter);
    OrphanDispatch(lib, name, p, emitter);
    FeedOne(lib, OrphanDispatched(lib, name, p, emitter).(data := [q]), q, emitter);
  }

  lemma OrphanLines(lib: Lib, name: string, p: string, q: string, emitter: bool)
    requires OrphanPayloads(lib, p, q) && Trimmed(name)
    ensures ScanLines(lib, OrphanBody(name, p, q), emitter) == OrphanDispatched(lib, name, p, emitter).(data := [q])
  {
    var head := ["event: " + name, "data: " + p];
    HeadLines(lib, name, p, emitter);
    OrphanDispatch(lib, name, p, emitter);
    ScanData(lib, OrphanDispatched(lib, name, p, emitter), q, emitter);
    TwoMore(lib, head, Scan([p], name, [], false), "data: " + q, emitter);
    assert OrphanBody(name, p, q) == head + ["", "data: " + q];
  }

  lemma TwoMore(lib: Lib, head: seq<string>, s: Scan, line: string, emitter: bool)
    requires ScanLines(lib, head, emitter) == s
    ensures ScanLines(lib, head + ["", line], emitter) == ScanLine(lib, Dispatch(lib, s, emitter), line, emitter)
  {
    ScanNext(lib, head, "", emitter);
    ScanBlank(lib, s, emitter);
    ScanNext(lib, head + [""], line, emitter);
    assert head + ["", line] == head + [""] + [line];
  }

  lemma HeadLines(lib: Lib, name: string, p: string, emitter: bool)
    requires Trimmed(name) && Trimmed(p)
    ensures ScanLines(lib, ["event: " + name, "data: " + p], emitter) == Scan([p], name, [], false)
  {
    ScanNext(lib, [], "event: " + name, emitter);
    ScanEvent(lib, START, name, emitter);
    ScanNext(lib, ["event: " + name], "data: " + p, emitter);
    ScanData(lib, START.(name := name), p, emitter);
    assert ["event: " + name] + ["data: " + p] == ["event: " + name, "data: " + p] && [] + ["event: " + name] == ["event: " + name];
  }

  function OrphanDispatched(lib: Lib, name: string, p: string, emitter: bool): Scan {
    Dispatch(lib, Scan([p], name, [], false), emitter)
  }

  lemma OrphanDispatch(lib: Lib, name: string, p: string, emitter: bool)
    requires Trimmed(p) && p != "[DONE]" && lib.decode(p).Some? && lib.decode(p).value.typ == ""
    ensures OrphanDispatched(lib, name, p, emitter).fed == [(Classify(if emitter then name else ""), lib.decode(p).value)]
    ensures OrphanDispatched(lib, name, p, emitter).data == []
  {
    FeedOne(lib, Scan([p], name, [], false), p, emitter);
  }

  /** A dispatch with one decodable payload pending. */
  lemma FeedOne(lib: Lib, s: Scan, payload: string, emitter: bool)
    requires s.data == [payload] && Trimmed(payload) && payload != "[DONE]" && lib.decode(payload).Some?
    ensures var ev := lib.decode(payload).value;
            var name := if emitter then s.name else "";
            && Dispatch(lib, s, emitter).fed == s.fed + [(TypeOf(ev, name), ev)]
            && Dispatch(lib, s, emitter).data == []
  {
    assert TrimLeft(payload) == payload && TrimSpace(payload) == payload;
  }

  lemma TwoFed(a: Typed, b: Typed)
    ensures TextOf(b) == "" ==> Texts([a, b]) == if TextOf(a) != "" then [TextOf(a)] else []
    ensures b.0 == Completed ==> Terminal([a, b])
    ensures a.0 != Failed && b.0 != Failed ==> Failure([a, b]).None?
  {
    assert [a, b][..1] == [a] && [a][..0] == [];
    assert Texts([a, b]) == Texts([a]) + if TextOf(b) != "" then [TextOf(b)] else [];
    assert Texts([a]) == Texts([]) + if TextOf(a) != "" then [TextOf(a)] else [];
    assert Failure([a, b]) == if b.0 == Failed then Some(UpstreamFailed(b.1.error)) else Failure([a]);
    assert Failure([a]) == if a.0 == Failed then Some(UpstreamFailed(a.1.error)) else Failure([]);
    assert [a, b][1] == b;
  }

  /** Such a stream: one text delta, and then the body breaks off. */
  lemma BrokenBodyEndsSilently(lib: Lib, p: string)
    requires Trimmed(p) && p != "[DONE]" && lib.decode(p).Some?
    requires lib.decode(p).value.typ == TEXT_DELTA && lib.decode(p).value.delta != ""
    ensures var out := Translated(lib, ["data: " + p, ""], true);
            ReadySignal(out, true).None? && EndsSilently(out) && Read(out.chunks).content == lib.decode(p).value.delta
  {
    var s, line, ev := Scan([p], "", [], false), "data: " + p, lib.decode(p).value;
    KnownNames();
    ScanNext(lib, [], line, true);
    ScanData(lib, START, p, true);
    assert [] + [line] == [line] && [] + [p] == [p];
    ScanNext(lib, [line], "", true);
    ScanBlank(lib, s, true);
    assert [line] + [""] == [line, ""];
    FeedOne(lib, s, p, true);
    var fed: seq<Typed> := [(TextDelta, ev)];
    assert ScanLines(lib, [line, ""], true).fed == [] + fed == fed;
    OneText(lib, ev);
  }

  lemma OneText(lib: Lib, ev: Event)
    requires ev.delta != ""
    ensures var chunks := LiveChunks(lib, [(TextDelta, ev)]);
            chunks != [] && Read(chunks).content == ev.delta && !Read(chunks).done
  {
    var e: Typed := (TextDelta, ev);
    ReadLive(lib, [e]);
    assert [e][..0] == [];
    assert Texts([e]) == Texts([]) + [ev.delta];
    ConcatNext([], ev.delta);
    assert [] + [ev.delta] == [ev.delta] && Concat([]) + ev.delta == ev.delta;
    assert Read([]) == View("", [], None, None, false);
  }
}
