/** The bound on failed logins is reached, for any number of requests at once. */
module RateLimitReached {
  import opened Base
  import opened RateLimit
  import opened RateLimitBound

  /** One IP alone: Allow calls that are admitted, and failures of open requests, with at most c open. */
  predicate Plays(r: Option<Rec>, ops: seq<Op>, ip: string, c: nat, open: nat, now: int)
    decreases |ops|
  {
    ops == [] ||
    var op := ops[0];
    && op.ip == ip && !op.Reset? && now <= op.now
    && (if op.Allow? then open < c && AllowOne(r, op.now).0 else open > 0)
    && Plays(NextOne(r, op, ip), ops[1..], ip, c, if op.Allow? then open + 1 else open - 1, op.now)
  }

  function Alone(ops: seq<Op>): seq<Step>
    decreases |ops|
  {
    if ops == [] then [] else [Step(ops[0], None)] + Alone(ops[1..])
  }

  /** Played on the limiter itself, it is a history the bound speaks about. */
  lemma {:induction false} PlaysRun(s: Limiter, r: Option<Rec>, ops: seq<Op>, ip: string, c: nat, open: nat, now: int)
    requires Agrees(s, ip, r, now) && Plays(r, ops, ip, c, open, now) && s.fails.Keys <= {ip}
    ensures var steps := Alone(ops);
            && LegalRun(s, steps) && Timed(steps, now) && OnlyFailures(s, steps, ip, c, open) && NeverEvicted(steps, ip)
    decreases |ops|
  {
    if ops != [] {
      var op, first := ops[0], Step(ops[0], None);
      AgreesStep(s, first, ip, r, now);
      NotCrowded(s, op, ip);
      PlaysRun(Next(s, first), NextOne(r, op, ip), ops[1..], ip, c, if op.Allow? then open + 1 else open - 1, op.now);
      assert Alone(ops)[1..] == Alone(ops[1..]);
    }
  }

  lemma NotCrowded(s: Limiter, op: Op, ip: string)
    requires s.fails.Keys <= {ip} && !op.Reset?
    ensures !Crowded(s, op)
  {
    var p := Pruned(s, op.now).fails;
    assert p.Keys <= {ip};
    if p.Keys == {} {
      assert |p| == 0;
    } else {
      assert p.Keys == {ip} && |p| == |p.Keys| == 1;
    }
  }

  // ---------------------------------------------------------------- bursts

  function Asks(ip: string, n: nat, t: int): seq<Op> {
    if n == 0 then [] else [Allow(ip, t)] + Asks(ip, n - 1, t)
  }

  function Fails(ip: string, n: nat, t: int): seq<Op> {
    if n == 0 then [] else [Fail(ip, t)] + Fails(ip, n - 1, t)
  }

  function Times(n: nat, t: int): (ts: seq<int>)
    ensures |ts| == n && forall i :: 0 <= i < n ==> ts[i] == t
  {
    seq(n, i => t)
  }

  /** Still within its window, and not locked. */
  predicate Unlocked(r: Option<Rec>, t: int) {
    r.None? || (r.value.lockedUntil.None? && t - r.value.windowStart <= WINDOW)
  }

  lemma PlaysNext(r: Option<Rec>, op: Op, ops: seq<Op>, ip: string, c: nat, open: nat, now: int)
    requires op.ip == ip && !op.Reset? && now <= op.now
    requires if op.Allow? then open < c && AllowOne(r, op.now).0 else open > 0
    requires Plays(NextOne(r, op, ip), ops, ip, c, if op.Allow? then open + 1 else open - 1, op.now)
    ensures Plays(r, [op] + ops, ip, c, open, now)
  {
    assert ([op] + ops)[0] == op && ([op] + ops)[1..] == ops;
  }

  lemma AloneNext(op: Op, ops: seq<Op>, ip: string)
    ensures FailTimes(Alone([op] + ops), ip) == Concerning(op, ip) + FailTimes(Alone(ops), ip)
  {
    assert ([op] + ops)[1..] == ops;
    assert ([Step(op, None)] + Alone(ops))[1..] == Alone(ops);
  }

  lemma {:induction false} AsksPlay(r: Option<Rec>, ip: string, n: nat, t: int, c: nat, open: nat, rest: seq<Op>)
    requires open + n <= c && Unlocked(r, t) && Plays(r, rest, ip, c, open + n, t)
    ensures Plays(r, Asks(ip, n, t) + rest, ip, c, open, t)
    decreases n
  {
    if n == 0 {
      assert Asks(ip, n, t) + rest == rest;
    } else {
      AsksPlay(r, ip, n - 1, t, c, open + 1, rest);
      PlaysNext(r, Allow(ip, t), Asks(ip, n - 1, t) + rest, ip, c, open, t);
      Assoc([Allow(ip, t)], Asks(ip, n - 1, t), rest);
    }
  }

  lemma {:induction false} AsksTimes(ip: string, n: nat, t: int, rest: seq<Op>)
    ensures FailTimes(Alone(Asks(ip, n, t) + rest), ip) == FailTimes(Alone(rest), ip)
  {
    if n == 0 {
      assert Asks(ip, n, t) + rest == rest;
    } else {
      AsksTimes(ip, n - 1, t, rest);
      Assoc([Allow(ip, t)], Asks(ip, n - 1, t), rest);
      AloneNext(Allow(ip, t), Asks(ip, n - 1, t) + rest, ip);
    }
  }

  /** The record after n more failures in its window. */
  function Failed(rec: Rec, n: nat, t: int): Rec {
    if n == 0 then rec
    else Rec(rec.count + n, rec.windowStart, if rec.count + n >= FAIL_LIMIT then Some(t + LOCKOUT) else rec.lockedUntil)
  }

  lemma {:induction false} FailsPlay(rec: Rec, ip: string, n: nat, t: int, c: nat, open: nat, rest: seq<Op>)
    requires n <= open && t - rec.windowStart <= WINDOW
    requires Plays(Some(Failed(rec, n, t)), rest, ip, c, open - n, t)
    ensures Plays(Some(rec), Fails(ip, n, t) + rest, ip, c, open, t)
    decreases n
  {
    if n == 0 {
      assert Fails(ip, n, t) + rest == rest;
    } else {
      var next := FailOne(Some(rec), t);
      assert Failed(next, n - 1, t) == Failed(rec, n, t);
      FailsPlay(next, ip, n - 1, t, c, open - 1, rest);
      PlaysNext(Some(rec), Fail(ip, t), Fails(ip, n - 1, t) + rest, ip, c, open, t);
      Assoc([Fail(ip, t)], Fails(ip, n - 1, t), rest);
    }
  }

  lemma {:induction false} FailsTimes(ip: string, n: nat, t: int, rest: seq<Op>)
    ensures FailTimes(Alone(Fails(ip, n, t) + rest), ip) == Times(n, t) + FailTimes(Alone(rest), ip)
  {
    if n == 0 {
      assert Fails(ip, n, t) + rest == rest;
    } else {
      FailsTimes(ip, n - 1, t, rest);
      Assoc([Fail(ip, t)], Fails(ip, n - 1, t), rest);
      AloneNext(Fail(ip, t), Fails(ip, n - 1, t) + rest, ip);
      assert Times(n, t) == [t] + Times(n - 1, t);
      Assoc([t], Times(n - 1, t), FailTimes(Alone(rest), ip));
    }
  }

  // ---------------------------------------------------------------- the history

  /** n attempts one after the other. */
  function Rounds(ip: string, n: nat, t: int): seq<Op> {
    if n == 0 then [] else [Allow(ip, t)] + ([Fail(ip, t)] + Rounds(ip, n - 1, t))
  }

  lemma {:induction false} RoundsPlay(rec: Rec, ip: string, n: nat, t: int, c: nat, rest: seq<Op>)
    requires c > 0 && rec.count + n < FAIL_LIMIT && rec.lockedUntil.None? && t - rec.windowStart <= WINDOW
    requires Plays(Some(rec.(count := rec.count + n)), rest, ip, c, 0, t)
    ensures Plays(Some(rec), Rounds(ip, n, t) + rest, ip, c, 0, t)
    decreases n
  {
    if n == 0 {
      assert Rounds(ip, n, t) + rest == rest && rec.(count := rec.count + n) == rec;
    } else {
      var next := FailOne(Some(rec), t);
      var tail := Rounds(ip, n - 1, t) + rest;
      RoundsPlay(next, ip, n - 1, t, c, rest);
      PlaysNext(Some(rec), Fail(ip, t), tail, ip, c, 1, t);
      PlaysNext(Some(rec), Allow(ip, t), [Fail(ip, t)] + tail, ip, c, 0, t);
      Assoc([Allow(ip, t)], [Fail(ip, t)] + Rounds(ip, n - 1, t), rest);
      Assoc([Fail(ip, t)], Rounds(ip, n - 1, t), rest);
    }
  }

  lemma {:induction false} RoundsTimes(ip: string, n: nat, t: int, rest: seq<Op>)
    ensures FailTimes(Alone(Rounds(ip, n, t) + rest), ip) == Times(n, t) + FailTimes(Alone(rest), ip)
  {
    if n == 0 {
      assert Rounds(ip, n, t) + rest == rest;
    } else {
      var tail := Rounds(ip, n - 1, t) + rest;
      RoundsTimes(ip, n - 1, t, rest);
      AloneNext(Fail(ip, t), tail, ip);
      AloneNext(Allow(ip, t), [Fail(ip, t)] + tail, ip);
      Assoc([Allow(ip, t)], [Fail(ip, t)] + Rounds(ip, n - 1, t), rest);
      Assoc([Fail(ip, t)], Rounds(ip, n - 1, t), rest);
      assert Times(n, t) == [t] + Times(n - 1, t);
      Assoc([t], Times(n - 1, t), FailTimes(Alone(rest), ip));
    }
  }

  /** Three failures, then as many requests at once as there may be, of which n fail. */
  function Burst(ip: string, c: nat, n: nat, t: int, rest: seq<Op>): seq<Op> {
    Rounds(ip, 3, t) + (Asks(ip, c, t) + (Fails(ip, n, t) + rest))
  }

  lemma BurstPlays(start: int, ip: string, c: nat, n: nat, t: int, rest: seq<Op>)
    requires 0 < c && n <= c && t - start <= WINDOW
    requires Plays(Some(Failed(Rec(4, start, None), n, t)), rest, ip, c, c - n, t)
    ensures Plays(Some(Rec(1, start, None)), Burst(ip, c, n, t, rest), ip, c, 0, t)
  {
    FailsPlay(Rec(4, start, None), ip, n, t, c, c, rest);
    AsksPlay(Some(Rec(4, start, None)), ip, c, t, c, 0, Fails(ip, n, t) + rest);
    RoundsPlay(Rec(1, start, None), ip, 3, t, c, Asks(ip, c, t) + (Fails(ip, n, t) + rest));
  }

  lemma BurstTimes(ip: string, c: nat, n: nat, t: int, rest: seq<Op>)
    ensures FailTimes(Alone(Burst(ip, c, n, t, rest)), ip) == Times(3 + n, t) + FailTimes(Alone(rest), ip)
  {
    FailsTimes(ip, n, t, rest);
    AsksTimes(ip, c, t, Fails(ip, n, t) + rest);
    RoundsTimes(ip, 3, t, Asks(ip, c, t) + (Fails(ip, n, t) + rest));
    assert Times(3 + n, t) == Times(3, t) + Times(n, t);
    Assoc(Times(3, t), Times(n, t), FailTimes(Alone(rest), ip));
  }

  /** One failure at first, a burst that leaves one request open as the window closes, and right after it that
      request, which takes the lock away, and another burst. */
  function Worst(ip: string, c: nat): seq<Op>
    requires c > 0
  {
    [Allow(ip, 0)] + ([Fail(ip, 0)] + Burst(ip, c, c - 1, WINDOW, Second(ip, c)))
  }

  function Second(ip: string, c: nat): seq<Op> {
    [Fail(ip, WINDOW + 1)] + Burst(ip, c, c, WINDOW + 1, [])
  }

  lemma WorstPlays(ip: string, c: nat)
    requires c > 0
    ensures Plays(None, Worst(ip, c), ip, c, 0, 0)
  {
    var v := WINDOW + 1;
    BurstPlays(v, ip, c, c, v, []);
    var before := Some(Failed(Rec(4, 0, None), c - 1, WINDOW));
    assert NextOne(before, Fail(ip, v), ip) == Some(Rec(1, v, None));
    PlaysNext(before, Fail(ip, v), Burst(ip, c, c, v, []), ip, c, 1, WINDOW);
    BurstPlays(0, ip, c, c - 1, WINDOW, Second(ip, c));
    var burst := Burst(ip, c, c - 1, WINDOW, Second(ip, c));
    PlaysSooner(Some(Rec(1, 0, None)), burst, ip, c, 0, WINDOW, 0);
    PlaysNext(None, Fail(ip, 0), burst, ip, c, 1, 0);
    PlaysNext(None, Allow(ip, 0), [Fail(ip, 0)] + burst, ip, c, 0, 0);
  }

  lemma PlaysSooner(r: Option<Rec>, ops: seq<Op>, ip: string, c: nat, open: nat, now: int, sooner: int)
    requires Plays(r, ops, ip, c, open, now) && sooner <= now
    ensures Plays(r, ops, ip, c, open, sooner)
  {
  }

  lemma WorstTimes(ip: string, c: nat)
    requires c > 0
    ensures FailTimes(Alone(Worst(ip, c)), ip) == [0] + (Times(c + 2, WINDOW) + Times(c + 4, WINDOW + 1))
  {
    var v := WINDOW + 1;
    BurstTimes(ip, c, c, v, []);
    assert FailTimes(Alone([]), ip) == [];
    AloneNext(Fail(ip, v), Burst(ip, c, c, v, []), ip);
    assert [v] + (Times(3 + c, v) + []) == Times(c + 4, v);
    BurstTimes(ip, c, c - 1, WINDOW, Second(ip, c));
    AloneNext(Fail(ip, 0), Burst(ip, c, c - 1, WINDOW, Second(ip, c)), ip);
    AloneNext(Allow(ip, 0), [Fail(ip, 0)] + Burst(ip, c, c - 1, WINDOW, Second(ip, c)), ip);
  }

  /** With c requests at once, 2c + 6 failures really can fall into ten minutes. */
  lemma BoundIsReached(ip: string, c: nat)
    requires c > 0
    ensures exists steps ::
              && LegalRun(INITIAL, steps) && Timed(steps, 0) && OnlyFailures(INITIAL, steps, ip, c, 0)
              && NeverEvicted(steps, ip) && |Within(FailTimes(steps, ip), WINDOW)| == Most(c)
  {
    WorstPlays(ip, c);
    PlaysRun(INITIAL, None, Worst(ip, c), ip, c, 0, 0);
    WorstTimes(ip, c);
    AllButFirst(FailTimes(Alone(Worst(ip, c)), ip), c);
  }

  lemma AllButFirst(ts: seq<int>, c: nat)
    requires ts == [0] + (Times(c + 2, WINDOW) + Times(c + 4, WINDOW + 1))
    ensures |Within(ts, WINDOW)| == Most(c)
  {
    assert forall i :: 0 < i < |ts| ==> WINDOW <= ts[i] <= WINDOW + 1;
    UpTo(Most(c));
    assert Within(ts, WINDOW) == Numbers(Most(c));
  }

  function Numbers(n: nat): set<nat> {
    if n == 0 then {} else Numbers(n - 1) + {n}
  }

  lemma {:induction false} UpTo(n: nat)
    ensures |Numbers(n)| == n && forall i :: i in Numbers(n) <==> 1 <= i <= n
  {
    if n > 0 {
      UpTo(n - 1);
    }
  }

  /** Eight, one request after the other. */
  lemma EightAreReached(ip: string)
    ensures exists steps ::
              && LegalRun(INITIAL, steps) && Timed(steps, 0) && OnlyFailures(INITIAL, steps, ip, 1, 0)
              && NeverEvicted(steps, ip) && |Within(FailTimes(steps, ip), WINDOW)| == 8
  {
    BoundIsReached(ip, 1);
  }
}
