/** How many failed logins the limiter lets one address make. */
module RateLimitBound {
  import opened Base
  import opened RateLimit

  /** Failed attempts in one window's length, with at most c requests of the IP at once. */
  function Most(c: nat): nat {
    2 * FAIL_LIMIT - 4 + 2 * c
  }

  /** adminAuth with wrong passwords: each request of this IP asks Allow and, once admitted, fails at some later time.
      At most c requests are between the two at once, open of them now, and none succeeds. Other IPs do anything in
      between. */
  predicate OnlyFailures(s: Limiter, steps: seq<Step>, ip: string, c: nat, open: nat)
    decreases |steps|
  {
    steps == [] ||
    var op, next := steps[0].op, Next(s, steps[0]);
    if op.ip != ip then OnlyFailures(next, steps[1..], ip, c, open)
    else match op
      case Allow(_, now) => open < c && OnlyFailures(next, steps[1..], ip, c, if Allowed(s, ip, now) then open + 1 else open)
      case Fail(_, _) => open > 0 && OnlyFailures(next, steps[1..], ip, c, open - 1)
      case Reset(_) => false
  }

  function FailTimes(steps: seq<Step>, ip: string): seq<int>
    decreases |steps|
  {
    if steps == [] then []
    else Concerning(steps[0].op, ip) + FailTimes(steps[1..], ip)
  }

  predicate Sorted(ts: seq<int>) {
    forall i, j :: 0 <= i < j < |ts| ==> ts[i] <= ts[j]
  }

  /** Any Most(c) + 1 consecutive times take more than a window. */
  predicate Spread(ts: seq<int>, c: nat) {
    Sorted(ts) && forall i :: 0 <= i < |ts| - Most(c) ==> ts[i + Most(c)] - ts[i] > WINDOW
  }

  /** One of the c + 3 times before index m lies more than a window before t. */
  predicate LongAgo(ts: seq<int>, m: int, t: int, c: nat) {
    exists p :: 0 <= p < m <= |ts| && m - (FAIL_LIMIT - 1) - c < p && t - ts[p] > WINDOW
  }

  /** What this IP's record says about the failures so far: they are its current window, the window before that began,
      or was locked, long enough ago, and once it is locked only the requests still open can add to it. */
  predicate Tally(past: seq<int>, r: Option<Rec>, c: nat, open: nat, now: int) {
    && Spread(past, c) && (past != [] ==> past[|past| - 1] <= now) && open <= c
    && match r
       case None => past != [] ==> LongAgo(past, |past|, now, c)
       case Some(Rec(k, start, lockedUntil)) =>
         && 1 <= k <= |past| && past[|past| - k] == start
         && lockedUntil == (if k >= FAIL_LIMIT then Some(past[|past| - 1] + LOCKOUT) else None)
         && (k < |past| ==> LongAgo(past, |past| - k, start, c))
         && (k >= FAIL_LIMIT ==> k + open < FAIL_LIMIT + c)
  }

  lemma AllowKeeps(past: seq<int>, r: Option<Rec>, c: nat, open: nat, now: int, later: int)
    requires Tally(past, r, c, open, now) && now <= later && open < c
    ensures Tally(past, AllowOne(r, later).1, c, if AllowOne(r, later).0 then open + 1 else open, later)
  {
    Later(past, |past|, now, later, c);
    if r.Some? && AllowOne(r, later).1.None? {
      var p := if r.value.lockedUntil.Some? then |past| - 1 else |past| - r.value.count;
      assert later - past[p] > WINDOW;
    }
  }

  lemma Later(past: seq<int>, m: int, now: int, later: int, c: nat)
    requires now <= later
    ensures LongAgo(past, m, now, c) ==> LongAgo(past, m, later, c)
  {
    if LongAgo(past, m, now, c) {
      var p :| 0 <= p < m <= |past| && m - (FAIL_LIMIT - 1) - c < p && now - past[p] > WINDOW;
      assert later - past[p] > WINDOW;
    }
  }

  lemma FailKeeps(past: seq<int>, r: Option<Rec>, c: nat, open: nat, now: int, later: int)
    requires Tally(past, r, c, open, now) && now <= later && open > 0
    ensures Tally(past + [later], Some(FailOne(r, later)), c, open - 1, later)
  {
    if r.None? || later - r.value.windowStart > WINDOW {
      FailStarts(past, r, c, open, now, later);
    } else {
      FailGoesOn(past, r.value, c, open, now, later);
    }
  }

  lemma FailStarts(past: seq<int>, r: Option<Rec>, c: nat, open: nat, now: int, later: int)
    requires Tally(past, r, c, open, now) && now <= later && open > 0
    requires r.None? || later - r.value.windowStart > WINDOW
    ensures Tally(past + [later], Some(Rec(1, later, None)), c, open - 1, later)
  {
    Later(past, |past|, now, later, c);
    assert r.Some? ==> later - past[|past| - r.value.count] > WINDOW;
    WindowGoesOn(past, |past|, later, later, c);
  }

  lemma FailGoesOn(past: seq<int>, rec: Rec, c: nat, open: nat, now: int, later: int)
    requires Tally(past, Some(rec), c, open, now) && now <= later && open > 0 && later - rec.windowStart <= WINDOW
    ensures Tally(past + [later], Some(FailOne(Some(rec), later)), c, open - 1, later)
  {
    WindowGoesOn(past, |past| - rec.count, rec.windowStart, later, c);
  }

  /** One more failure in the window that starts at index m. */
  lemma WindowGoesOn(past: seq<int>, m: nat, start: int, later: int, c: nat)
    requires Spread(past, c) && (past != [] ==> past[|past| - 1] <= later) && start <= later
    requires m <= |past| < m + (FAIL_LIMIT - 1) + c && (m > 0 ==> LongAgo(past, m, start, c))
    ensures Spread(past + [later], c) && (m > 0 ==> LongAgo(past + [later], m, start, c))
  {
    if m > 0 {
      var p :| 0 <= p < m <= |past| && m - (FAIL_LIMIT - 1) - c < p && start - past[p] > WINDOW;
      assert (past + [later])[p] == past[p];
      SpreadOn(past, later, p, c);
    }
  }

  /** A time that comes more than a window after one at most Most(c) places back keeps the times spread. */
  lemma SpreadOn(past: seq<int>, later: int, p: int, c: nat)
    requires Spread(past, c) && past != [] && past[|past| - 1] <= later
    requires 0 <= p < |past| && |past| - Most(c) <= p && later - past[p] > WINDOW
    ensures Spread(past + [later], c)
  {
  }

  function Concerning(op: Op, ip: string): seq<int> {
    if op.Fail? && op.ip == ip then [op.now] else []
  }

  function OpenNext(r: Option<Rec>, op: Op, ip: string, open: nat): nat
    requires op.ip == ip ==> op.Allow? || (op.Fail? && open > 0)
  {
    if op.ip != ip then open else if op.Fail? then open - 1 else if AllowOne(r, op.now).0 then open + 1 else open
  }

  function TimeOf(op: Op, now: int): int {
    if op.Reset? then now else op.now
  }

  lemma StepKeeps(r: Option<Rec>, op: Op, ip: string, now: int, c: nat, open: nat, past: seq<int>)
    requires Tally(past, r, c, open, now) && now <= TimeOf(op, now)
    requires op.ip == ip ==> if op.Allow? then open < c else op.Fail? && open > 0
    ensures Tally(past + Concerning(op, ip), NextOne(r, op, ip), c, OpenNext(r, op, ip, open), TimeOf(op, now))
  {
    assert Concerning(op, ip) == [] ==> past + Concerning(op, ip) == past;
    if op.ip != ip {
      Later(past, |past|, now, TimeOf(op, now), c);
    } else if op.Allow? {
      AllowKeeps(past, r, c, open, now, op.now);
    } else {
      FailKeeps(past, r, c, open, now, op.now);
    }
  }

  predicate Underway(s: Limiter, r: Option<Rec>, steps: seq<Step>, ip: string, now: int, c: nat, open: nat) {
    && Agrees(s, ip, r, now) && Timed(steps, now) && NeverEvicted(steps, ip)
    && OnlyFailures(s, steps, ip, c, open)
  }

  lemma Advance(s: Limiter, r: Option<Rec>, steps: seq<Step>, ip: string, now: int, c: nat, open: nat)
    requires steps != [] && Underway(s, r, steps, ip, now, c, open)
    ensures var op := steps[0].op;
            && now <= TimeOf(op, now)
            && (op.ip == ip ==> if op.Allow? then open < c else op.Fail? && open > 0)
            && Underway(Next(s, steps[0]), NextOne(r, op, ip), steps[1..], ip, TimeOf(op, now), c, OpenNext(r, op, ip, open))
  {
    AgreesStep(s, steps[0], ip, r, now);
    assert NeverEvicted(steps[1..], ip);
  }

  lemma {:induction false} FailuresAreSpread(s: Limiter, r: Option<Rec>, steps: seq<Step>, ip: string, now: int, c: nat, open: nat, past: seq<int>)
    requires Underway(s, r, steps, ip, now, c, open) && Tally(past, r, c, open, now)
    ensures Spread(past + FailTimes(steps, ip), c)
    decreases |steps|
  {
    if steps == [] {
      assert past + FailTimes(steps, ip) == past;
    } else {
      var op := steps[0].op;
      Advance(s, r, steps, ip, now, c, open);
      StepKeeps(r, op, ip, now, c, open, past);
      var more, rest := past + Concerning(op, ip), FailTimes(steps[1..], ip);
      FailuresAreSpread(Next(s, steps[0]), NextOne(r, op, ip), steps[1..], ip, TimeOf(op, now), c, OpenNext(r, op, ip, open), more);
      Assoc(past, Concerning(op, ip), rest);
    }
  }

  /** The failures within one closed window. */
  function Within(ts: seq<int>, from: int): set<nat> {
    set i: nat | i < |ts| && from <= ts[i] <= from + WINDOW
  }

  /** An IP that is never evicted and has at most c requests at once gets at most 2c + 6 failed attempts into any
      closed ten-minute interval: eight, if its requests come one after the other. */
  lemma FailuresAreBounded(steps: seq<Step>, ip: string, now: int, c: nat, from: int)
    requires Timed(steps, now) && NeverEvicted(steps, ip) && OnlyFailures(INITIAL, steps, ip, c, 0)
    ensures |Within(FailTimes(steps, ip), from)| <= Most(c) == 2 * c + 6
    ensures Most(1) == 8
  {
    FailuresAreSpread(INITIAL, None, steps, ip, now, c, 0, []);
    var ts := FailTimes(steps, ip);
    assert [] + ts == ts;
    SpreadIsFew(ts, from, c);
  }

  lemma SpreadIsFew(ts: seq<int>, from: int, c: nat)
    requires Spread(ts, c)
    ensures |Within(ts, from)| <= Most(c)
  {
    var inside := Within(ts, from);
    if inside != {} {
      var low := Least(inside);
      forall i | i in inside ensures i < low + Most(c) {
        assert low + Most(c) < |ts| ==> ts[low + Most(c)] - ts[low] > WINDOW;
      }
      IntervalSize(inside, low, Most(c));
    }
  }

  lemma {:induction false} Least(s: set<nat>) returns (low: nat)
    requires s != {}
    ensures low in s && forall i :: i in s ==> low <= i
  {
    var any :| any in s;
    low := any;
    if s != {any} {
      var rest := Least(s - {any});
      low := Min(rest, any);
      assert forall i :: i in s ==> i == any || i in s - {any};
    }
  }

  lemma {:induction false} IntervalSize(s: set<nat>, low: nat, n: nat)
    requires forall i :: i in s ==> low <= i < low + n
    ensures |s| <= n
  {
    if n == 0 {
      assert s == {};
    } else {
      IntervalSize(s - {low + n - 1}, low, n - 1);
    }
  }
}
