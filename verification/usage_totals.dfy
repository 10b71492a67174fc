/** The running totals: what the counters of accounts can add up to while requests, key changes, deletions, saves and
    restarts interleave. */
module UsageTotals {
  import opened Base
  import opened Usage
  import opened UsageLaws

  /** What other goroutines can see between two steps: Record's halves, key changes and deletions. Each Count is
      followed, some time, by the Credit or Skip of the same request. */
  datatype Event =
    | Count(e: Entry)
    | Credit(key: string, e: Entry)
    | Skip
    | Move(oldKey: string, newKey: string)
    | Drop(key: string)

  datatype Live = Live(t: Tracker, pending: nat)

  predicate Possible(s: Live, ev: Event) {
    match ev
    case Count(e) => e.requests == 1
    case Credit(key, e) => s.pending > 0 && key != "" && e.requests == 1
    case Skip => s.pending > 0
    case Move(oldKey, newKey) => oldKey != newKey
    case Drop(_) => true
  }

  function After(s: Live, ev: Event): Live
    requires Possible(s, ev)
  {
    match ev
    case Count(e) => Live(Counted(s.t, e), s.pending + 1)
    case Credit(key, e) => Live(AccountCredited(s.t, key, e), s.pending - 1)
    case Skip => s.(pending := s.pending - 1)
    case Move(oldKey, newKey) => s.(t := Rekeyed(s.t, oldKey, newKey))
    case Drop(key) => s.(t := s.t.(accounts := s.t.accounts - {key}))
  }

  predicate Run(s: Live, events: seq<Event>)
    decreases |events|
  {
    events == [] || (Possible(s, events[0]) && Run(After(s, events[0]), events[1..]))
  }

  function End(s: Live, events: seq<Event>): Live
    requires Run(s, events)
    decreases |events|
  {
    if events == [] then s else End(After(s, events[0]), events[1..])
  }

  predicate NonNegative(counters: map<string, Entry>) {
    forall key :: key in counters ==> counters[key].requests >= 0
  }

  /** By how many requests the counters fall short of the total. */
  ghost function Shortfall(s: Live): int {
    s.t.total.requests - s.pending - Sum(s.t.accounts).requests
  }

  lemma StepConserves(s: Live, ev: Event)
    requires Possible(s, ev) && NonNegative(s.t.accounts)
    ensures NonNegative(After(s, ev).t.accounts)
    ensures Shortfall(After(s, ev)) == Shortfall(s) + match ev
            case Skip => 1
            case Drop(key) => Get(s.t.accounts, key).requests
            case _ => 0
  {
    match ev
    case Count(_) =>
    case Credit(key, e) => CreditAdds(s.t.accounts, Resolve(s.t.aliases, key, MAX_HOPS), e);
    case Skip =>
    case Move(oldKey, newKey) => MoveConserves(s.t.accounts, oldKey, newKey);
    case Drop(key) => DropRemoves(s.t.accounts, key);
  }

  /** Within one process the shortfall never shrinks. */
  lemma {:induction false} ShortfallNeverShrinks(s: Live, events: seq<Event>)
    requires Run(s, events) && NonNegative(s.t.accounts)
    ensures NonNegative(End(s, events).t.accounts) && Shortfall(End(s, events)) >= Shortfall(s)
    decreases |events|
  {
    if events != [] {
      StepConserves(s, events[0]);
      ShortfallNeverShrinks(After(s, events[0]), events[1..]);
    }
  }

  ghost predicate Within(s: Live) {
    Sum(s.t.accounts).requests <= s.t.total.requests
  }

  /** The account requests stay within the total in every state a process can reach, also between the halves of a
      record, exactly when they and the requests still pending fit into it now. */
  lemma WithinForGood(s: Live)
    requires NonNegative(s.t.accounts)
    ensures (forall events :: Run(s, events) ==> Within(End(s, events))) <==> Shortfall(s) >= 0
  {
    if Shortfall(s) >= 0 {
      forall events | Run(s, events) ensures Within(End(s, events)) {
        ShortfallNeverShrinks(s, events);
      }
    } else {
      var e := SomeRequest();
      var events := CreditPending(s, e);
      assert !Within(End(s, events));
    }
  }

  lemma SomeRequest() returns (e: Entry)
    ensures e.requests == 1
  {
    e := Request(0, 0, 0, 0);
  }

  /** Every pending request can come to be credited. */
  lemma {:induction false} CreditPending(s: Live, e: Entry) returns (events: seq<Event>)
    requires NonNegative(s.t.accounts) && e.requests == 1
    ensures Run(s, events)
    ensures End(s, events).t.total == s.t.total && Sum(End(s, events).t.accounts).requests == Sum(s.t.accounts).requests + s.pending
    decreases s.pending
  {
    events := [];
    if s.pending > 0 {
      var ev := Credit("key", e);
      StepConserves(s, ev);
      var rest := CreditPending(After(s, ev), e);
      events := [ev] + rest;
      assert events[1..] == rest;
    }
  }

  // ---------------------------------------------------------------- the gap inside a snapshot

  function Counts(events: seq<Event>): nat
    decreases |events|
  {
    if events == [] then 0 else (if events[0].Count? then 1 else 0) + Counts(events[1..])
  }

  function Credits(events: seq<Event>): nat
    decreases |events|
  {
    if events == [] then 0 else (if events[0].Credit? then 1 else 0) + Credits(events[1..])
  }

  /** The requests that go with deleted accounts. */
  function Dropped(s: Live, events: seq<Event>): int
    requires Run(s, events)
    decreases |events|
  {
    if events == [] then 0
    else (if events[0].Drop? then Get(s.t.accounts, events[0].key).requests else 0) + Dropped(After(s, events[0]), events[1..])
  }

  lemma {:induction false} SumGrows(s: Live, events: seq<Event>)
    requires Run(s, events)
    ensures Sum(End(s, events).t.accounts).requests == Sum(s.t.accounts).requests + Credits(events) - Dropped(s, events)
    decreases |events|
  {
    if events != [] {
      StepSums(s, events[0]);
      SumGrows(After(s, events[0]), events[1..]);
    }
  }

  lemma StepSums(s: Live, ev: Event)
    requires Possible(s, ev)
    ensures Sum(After(s, ev).t.accounts).requests == Sum(s.t.accounts).requests + match ev
            case Credit(_, _) => 1
            case Drop(key) => -Get(s.t.accounts, key).requests
            case _ => 0
  {
    match ev
    case Credit(key, e) => CreditAdds(s.t.accounts, Resolve(s.t.aliases, key, MAX_HOPS), e);
    case Move(oldKey, newKey) => MoveConserves(s.t.accounts, oldKey, newKey);
    case Drop(key) => DropRemoves(s.t.accounts, key);
    case _ =>
  }

  /** Snapshot reads the total in state s and the counters after what comes between. It holds more account requests
      than its total exactly when more are credited in between than were pending or short before, or deleted since. */
  lemma SnapshotOvershoots(s: Live, between: seq<Event>)
    requires Run(s, between)
    ensures Sum(End(s, between).t.accounts).requests > s.t.total.requests <==>
            Credits(between) > s.pending + Shortfall(s) + Dropped(s, between)
  {
    SumGrows(s, between);
  }

  /** By no more than the requests that arrive between the two reads. */
  lemma SnapshotOvershoot(s: Live, between: seq<Event>)
    requires Run(s, between) && NonNegative(s.t.accounts)
    ensures Sum(End(s, between).t.accounts).requests <= s.t.total.requests + Counts(between) - Shortfall(s)
  {
    ShortfallNeverShrinks(s, between);
    TotalGrows(s, between);
  }

  lemma {:induction false} TotalGrows(s: Live, events: seq<Event>)
    requires Run(s, events)
    ensures End(s, events).t.total.requests == s.t.total.requests + Counts(events)
    decreases |events|
  {
    if events != [] {
      TotalGrows(After(s, events[0]), events[1..]);
    }
  }

  /** It does overshoot: with nothing pending and every request credited, as after start-up, one request between
      the two reads leaves the file with one more than its total. */
  lemma SnapshotCanOvershoot(s: Live, key: string, e: Entry)
    requires key != "" && e.requests == 1 && NonNegative(s.t.accounts)
    requires s.pending == 0 && Shortfall(s) == 0
    ensures Run(s, [Count(e), Credit(key, e)])
    ensures Sum(End(s, [Count(e), Credit(key, e)]).t.accounts).requests == s.t.total.requests + 1
  {
    var s1 := After(s, Count(e));
    var last := [Credit(key, e)];
    StepConserves(s, Count(e));
    StepConserves(s1, Credit(key, e));
    assert last[1..] == [] && Run(s1, last) && End(s1, last) == After(s1, Credit(key, e));
    assert [Count(e), Credit(key, e)][1..] == last;
  }

  // ---------------------------------------------------------------- saves and restarts

  /** The process, the total a save has read so far, and the file. */
  datatype Life = Life(now: Live, reading: Option<Entry>, file: Saved)

  /** Saves exclude each other. A save that fails, or is cut off by a restart, leaves the file as it was. */
  datatype Turn = Work(ev: Event) | ReadTotal | WriteFile | GiveUp | Restart

  ghost function Started(file: Saved): Life {
    Life(Live(Loaded(file), 0), None, file)
  }

  ghost predicate CanTurn(l: Life, turn: Turn) {
    match turn
    case Work(ev) => Possible(l.now, ev)
    case ReadTotal => l.reading.None?
    case WriteFile => l.reading.Some?
    case GiveUp => l.reading.Some?
    case Restart => true
  }

  ghost function AfterTurn(l: Life, turn: Turn): Life
    requires CanTurn(l, turn)
  {
    match turn
    case Work(ev) => l.(now := After(l.now, ev))
    case ReadTotal => l.(reading := Some(l.now.t.total))
    case WriteFile => l.(reading := None, file := SavedOf(l.now.t).(total := l.reading.value))
    case GiveUp => l.(reading := None)
    case Restart => Started(l.file)
  }

  ghost predicate Lives(l: Life, turns: seq<Turn>)
    decreases |turns|
  {
    turns == [] || (CanTurn(l, turns[0]) && Lives(AfterTurn(l, turns[0]), turns[1..]))
  }

  /** The states of a life are all within their totals. */
  ghost predicate AlwaysWithin(l: Life, turns: seq<Turn>)
    requires Lives(l, turns)
    decreases |turns|
  {
    Within(l.now) && (turns == [] || AlwaysWithin(AfterTurn(l, turns[0]), turns[1..]))
  }

  ghost predicate FileWithin(file: Saved) {
    Sum(file.accounts).requests <= file.total.requests
  }

  /** Every file a process is started from is within its total. */
  ghost predicate FilesWithin(l: Life, turns: seq<Turn>)
    requires Lives(l, turns)
    decreases |turns|
  {
    turns == [] || ((turns[0].Restart? ==> FileWithin(l.file)) && FilesWithin(AfterTurn(l, turns[0]), turns[1..]))
  }

  /** Over a whole life with any saves and restarts the account requests stay within the total exactly when every
      file it starts from holds no more than its own total. */
  lemma LifeStaysWithin(file: Saved, turns: seq<Turn>)
    requires NonNegative(file.accounts) && Lives(Started(file), turns)
    ensures AlwaysWithin(Started(file), turns) <==> FileWithin(file) && FilesWithin(Started(file), turns)
  {
    StartedFrom(file);
    if FileWithin(file) {
      LifeFromHere(Started(file), turns);
    }
  }

  lemma StartedFrom(file: Saved)
    requires NonNegative(file.accounts)
    ensures NonNegative(Started(file).now.t.accounts)
    ensures Shortfall(Started(file).now) == file.total.requests - Sum(file.accounts).requests
  {
    LoadConserves(file);
    forall key | key in Grouped(file.accounts) ensures Grouped(file.accounts)[key].requests >= 0 {
      SumNonNegative(Group(file.accounts, key));
    }
  }

  lemma {:induction false} SumNonNegative(counters: map<string, Entry>)
    requires NonNegative(counters)
    ensures Sum(counters).requests >= 0
    decreases |counters|
  {
    if counters != map[] {
      var key :| key in counters;
      SumRemove(counters, key);
      SumNonNegative(counters - {key});
    }
  }

  lemma {:induction false} LifeFromHere(l: Life, turns: seq<Turn>)
    requires Lives(l, turns) && NonNegative(l.now.t.accounts) && NonNegative(l.file.accounts) && Shortfall(l.now) >= 0
    ensures AlwaysWithin(l, turns) <==> FilesWithin(l, turns)
    decreases |turns|
  {
    if turns != [] {
      var next := AfterTurn(l, turns[0]);
      match turns[0] {
        case Work(ev) =>
          StepConserves(l.now, ev);
          LifeFromHere(next, turns[1..]);
        case Restart =>
          StartedFrom(l.file);
          if FileWithin(l.file) {
            LifeFromHere(next, turns[1..]);
          }
        case _ => LifeFromHere(next, turns[1..]);
      }
    }
  }

  /** Such a life: a request arrives inside a save, and the next process starts one over its total. */
  lemma RestartCanOvershoot(file: Saved, key: string, e: Entry)
    requires NonNegative(file.accounts) && Sum(file.accounts).requests == file.total.requests
    requires key != "" && e.requests == 1
    ensures var turns := [ReadTotal, Work(Count(e)), Work(Credit(key, e)), WriteFile, Restart];
            Lives(Started(file), turns) && !AlwaysWithin(Started(file), turns)
  {
    StartedFrom(file);
    var l1 := AfterTurn(Started(file), ReadTotal);
    OneRequestInside(l1, key, e);
    var l2 := AfterTurn(l1, Work(Count(e)));
    var l3 := AfterTurn(l2, Work(Credit(key, e)));
    var work := [Work(Credit(key, e)), WriteFile, Restart];
    Earlier(l2, Work(Credit(key, e)), [WriteFile, Restart]);
    Earlier(l1, Work(Count(e)), work);
    Earlier(Started(file), ReadTotal, [Work(Count(e))] + work);
    assert [ReadTotal] + ([Work(Count(e))] + work) == [ReadTotal, Work(Count(e)), Work(Credit(key, e)), WriteFile, Restart];
  }

  lemma OneRequestInside(l: Life, key: string, e: Entry)
    requires key != "" && e.requests == 1 && NonNegative(l.now.t.accounts)
    requires l.now.pending == 0 && Shortfall(l.now) == 0 && l.reading == Some(l.now.t.total)
    ensures CanTurn(l, Work(Count(e))) && CanTurn(AfterTurn(l, Work(Count(e))), Work(Credit(key, e)))
    ensures var written := AfterTurn(AfterTurn(l, Work(Count(e))), Work(Credit(key, e)));
            Lives(written, [WriteFile, Restart]) && !AlwaysWithin(written, [WriteFile, Restart])
  {
    StepConserves(l.now, Count(e));
    StepConserves(After(l.now, Count(e)), Credit(key, e));
    var l3 := AfterTurn(AfterTurn(l, Work(Count(e))), Work(Credit(key, e)));
    var l4 := AfterTurn(l3, WriteFile);
    StartedFrom(l4.file);
    assert !AlwaysWithin(AfterTurn(l4, Restart), []);
    Earlier(l4, Restart, []);
    Earlier(l3, WriteFile, [Restart]);
  }

  lemma Earlier(l: Life, turn: Turn, rest: seq<Turn>)
    requires CanTurn(l, turn) && Lives(AfterTurn(l, turn), rest) && !AlwaysWithin(AfterTurn(l, turn), rest)
    ensures Lives(l, [turn] + rest) && !AlwaysWithin(l, [turn] + rest)
  {
    assert ([turn] + rest)[1..] == rest;
  }

  // ---------------------------------------------------------------- keys

  /** Every key on the way comes from KeyFor. */
  predicate Keyed(ev: Event) {
    match ev
    case Credit(key, _) => Settled(key)
    case Move(oldKey, newKey) => Settled(oldKey) && Settled(newKey)
    case _ => true
  }

  lemma {:induction false} ResolveSettles(aliases: map<string, string>, key: string, hops: nat)
    requires Settled(key) && forall k :: k in aliases ==> Settled(aliases[k])
    ensures Settled(Resolve(aliases, key, hops))
    decreases hops
  {
    if hops > 0 && key in aliases {
      ResolveSettles(aliases, aliases[key], hops - 1);
    }
  }

  lemma {:induction false} KeysStaySettled(s: Live, events: seq<Event>)
    requires Run(s, events) && SettledKeys(s.t) && forall i :: 0 <= i < |events| ==> Keyed(events[i])
    ensures SettledKeys(End(s, events).t)
    decreases |events|
  {
    if events != [] {
      var ev := events[0];
      assert Keyed(ev);
      if ev.Credit? {
        ResolveSettles(s.t.aliases, ev.key, MAX_HOPS);
      }
      assert SettledKeys(After(s, ev).t);
      KeysStaySettled(After(s, ev), events[1..]);
    }
  }
}
