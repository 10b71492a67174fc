/** logbuf.go: the in-memory tail of the log, a ring that stands for the list of all lines ever written. */
module LogBuf {
  import opened Base
  import opened Rings

  const CAPACITY: nat := 500

  datatype LogEntry = LogEntry(number: int, time: int, line: string)

  function TrimNewlines(s: string): string {
    if s != "" && s[|s| - 1] == '\n' then TrimNewlines(s[..|s| - 1]) else s
  }

  /** What is left ends in no newline, and only newlines are gone. */
  lemma {:induction false} TrimNewlinesMeaning(s: string)
    ensures TrimNewlines(s) <= s && forall i :: |TrimNewlines(s)| <= i < |s| ==> s[i] == '\n'
    ensures TrimNewlines(s) != "" ==> TrimNewlines(s)[|TrimNewlines(s)| - 1] != '\n'
  {
    if s != "" && s[|s| - 1] == '\n' {
      TrimNewlinesMeaning(s[..|s| - 1]);
    }
  }

  /** The line number a list index carries. */
  predicate Numbered(log: seq<LogEntry>) {
    forall k :: 0 <= k < |log| ==> log[k].number == k + 1
  }

  /** The kept lines after a sequence number. */
  function Since(log: seq<LogEntry>, after: int, capacity: nat): seq<LogEntry> {
    log[Max(|log| - capacity, Max(0, Min(after, |log|)))..]
  }

  /** They are, in order, exactly the lines with a greater number among the last ones a ring of this capacity keeps. */
  lemma SinceMeaning(log: seq<LogEntry>, after: int, capacity: nat) returns (from: nat)
    requires Numbered(log)
    ensures from <= |log| && Since(log, after, capacity) == log[from..]
    ensures forall k :: 0 <= k < |log| ==> (from <= k <==> log[k].number > after && |log| - k <= capacity)
  {
    from := Max(|log| - capacity, Max(0, Min(after, |log|)));
  }

  class LogRing {
    const entries: array<LogEntry>
    var next: nat
    var filled: nat
    var number: int
    ghost var log: seq<LogEntry>

    ghost predicate Valid()
      reads this, entries
    {
      var n := entries.Length;
      && n > 0 && number == |log| && Numbered(log)
      && filled == Min(|log|, n) && next == |log| % n
      && forall k :: |log| - filled <= k < |log| ==> entries[k % n] == log[k]
    }

    constructor (capacity: nat := CAPACITY)
      requires capacity > 0
      ensures Valid() && log == [] && entries.Length == capacity && fresh(entries)
    {
      entries := new LogEntry[capacity](_ => LogEntry(0, 0, ""));
      next, filled, number, log := 0, 0, 0, [];
    }

    /** Blank lines are dropped. strip removes terminal escape sequences. */
    method Write(p: string, strip: string -> string, now: int) returns (n: nat)
      requires Valid()
      modifies this, entries
      ensures Valid() && n == |p|
      ensures var line := strip(TrimNewlines(p));
              log == if TrimSpace(line) == "" then old(log) else old(log) + [LogEntry(|old(log)| + 1, now, line)]
    {
      n := |p|;
      var line := strip(TrimNewlines(p));
      if TrimSpace(line) == "" {
        return;
      }
      ghost var was := log;
      number := number + 1;
      var e := LogEntry(number, now, line);
      entries[next] := e;
      log := log + [e];
      NextSlot(|was|, entries.Length);
      next := (next + 1) % entries.Length;
      if filled < entries.Length {
        filled := filled + 1;
      }
      forall k | |log| - filled <= k < |log| ensures entries[k % entries.Length] == log[k] {
        if k < |was| {
          SlotsDiffer(k, |was|, entries.Length);
        }
      }
    }

    /** Kept line i, from its slot. */
    method Kept(i: nat) returns (e: LogEntry)
      requires Valid() && i < filled
      ensures e == log[|log| - filled + i] && e.number == |log| - filled + i + 1
    {
      BackFrom(|log|, filled - i, entries.Length);
      e := entries[(next - filled + i + entries.Length) % entries.Length];
    }

    /** The kept lines above a sequence number, oldest first, and the latest number. */
    method After(after: int) returns (out: seq<LogEntry>, last: int)
      requires Valid()
      ensures out == Since(log, after, entries.Length) && last == |log|
    {
      last := number;
      out := [];
      ghost var first := |log| - filled;
      ghost var from := Max(first, Max(0, Min(after, |log|)));
      for i := 0 to filled
        invariant out == Between(log, from, first + i)
      {
        BetweenNext(log, from, first + i);
        var e := Kept(i);
        if e.number > after {
          out := out + [e];
        }
      }
    }
  }

  function Between(log: seq<LogEntry>, from: nat, to: nat): seq<LogEntry>
    requires to <= |log|
  {
    if to <= from then [] else log[from..to]
  }

  lemma BetweenNext(log: seq<LogEntry>, from: nat, k: nat)
    requires k < |log|
    ensures Between(log, from, k + 1) == if k < from then [] else Between(log, from, k) + [log[k]]
    ensures k < from ==> Between(log, from, k) == []
  {
  }

  /** Going back at most a round from slot m. */
  lemma BackFrom(m: nat, back: nat, n: nat)
    requires 0 < back <= n && back <= m
    ensures (m % n - back + n) % n == (m - back) % n
  {
    var x, q := m % n - back + n, m / n;
    assert m - back == (q - 1 + x / n) * n + x % n by {
      assert m == q * n + m % n && x == (x / n) * n + x % n;
      assert (q - 1 + x / n) * n == q * n - n + (x / n) * n;
    }
    ModUnique(m - back, n, q - 1 + x / n, x % n);
  }

  // ---------------------------------------------------------------- polling

  /** What a poller collects that passes back the last number it was given, when the log has these lengths at its polls. */
  function Polled(log: seq<LogEntry>, after: nat, polls: seq<nat>, capacity: nat): seq<LogEntry>
    requires forall i :: 0 <= i < |polls| ==> polls[i] <= |log|
    decreases |polls|
  {
    if polls == [] then [] else Since(log[..polls[0]], after, capacity) + Polled(log, polls[0], polls[1..], capacity)
  }

  predicate InOrder(after: nat, polls: seq<nat>)
    decreases |polls|
  {
    polls == [] || (after <= polls[0] && InOrder(polls[0], polls[1..]))
  }

  /** At most a capacity's worth is written between polls. */
  predicate KeepsUp(after: nat, polls: seq<nat>, capacity: nat)
    decreases |polls|
  {
    polls == [] || (polls[0] - after <= capacity && KeepsUp(polls[0], polls[1..], capacity))
  }

  function LastPoll(after: nat, polls: seq<nat>): nat {
    if polls == [] then after else polls[|polls| - 1]
  }

  /** Exactly then it sees every line, each once and in order; otherwise it misses some. */
  lemma PollerSeesAll(log: seq<LogEntry>, after: nat, polls: seq<nat>, capacity: nat)
    requires InOrder(after, polls) && after <= |log| && forall i :: 0 <= i < |polls| ==> polls[i] <= |log|
    ensures after <= LastPoll(after, polls) <= |log|
    ensures Polled(log, after, polls, capacity) == log[after..LastPoll(after, polls)] <==> KeepsUp(after, polls, capacity)
  {
    PollsAddUp(log, after, polls, capacity);
  }

  lemma {:induction false} PollsAddUp(log: seq<LogEntry>, after: nat, polls: seq<nat>, capacity: nat)
    requires InOrder(after, polls) && after <= |log| && forall i :: 0 <= i < |polls| ==> polls[i] <= |log|
    ensures after <= LastPoll(after, polls) <= |log|
    ensures if KeepsUp(after, polls, capacity) then Polled(log, after, polls, capacity) == log[after..LastPoll(after, polls)]
            else |Polled(log, after, polls, capacity)| < LastPoll(after, polls) - after
    decreases |polls|
  {
    if polls != [] {
      PollsAddUp(log, polls[0], polls[1..], capacity);
      var got := Since(log[..polls[0]], after, capacity);
      if polls[0] - after <= capacity {
        assert got == log[after..polls[0]];
      } else {
        assert |got| == capacity;
      }
    }
  }
}
