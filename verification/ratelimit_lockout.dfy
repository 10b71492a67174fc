/** When a lockout holds to its end. */
module RateLimitLockout {
  import opened Base
  import opened RateLimit
  import opened RateLimitBound

  /** Whenever the IP asked between now and u, it would be turned away. */
  ghost predicate Denied(s: Limiter, ip: string, now: int, u: int) {
    forall t :: now <= t < u ==> !Allowed(s, ip, t)
  }

  /** In every state of the run. */
  ghost predicate AlwaysDenied(s: Limiter, steps: seq<Step>, ip: string, now: int, u: int)
    decreases |steps|
  {
    Denied(s, ip, now, u) && (steps == [] || AlwaysDenied(Next(s, steps[0]), steps[1..], ip, TimeOf(steps[0].op, now), u))
  }

  /** What can take a lock away: a reset, the eviction of the record, and a failure, of a request admitted before the
      lock, that comes when the window is over: it starts a new window without a lock. */
  predicate Unlocks(step: Step, ip: string, start: int) {
    if step.op.ip == ip then step.op.Reset? || (step.op.Fail? && step.op.now - start > WINDOW)
    else step.op.Fail? && step.victim == Some(ip)
  }

  predicate NoneUnlocks(steps: seq<Step>, ip: string, start: int) {
    forall i :: 0 <= i < |steps| ==> !Unlocks(steps[i], ip, start)
  }

  /** All calls come before u. */
  predicate AllBefore(steps: seq<Step>, u: int) {
    forall i :: 0 <= i < |steps| && !steps[i].op.Reset? ==> steps[i].op.now < u
  }

  predicate LockedFor(s: Limiter, ip: string, start: int, u: int) {
    && ip in s.fails && s.fails[ip].windowStart == start && s.fails[ip].count >= FAIL_LIMIT
    && s.fails[ip].lockedUntil.Some? && u <= s.fails[ip].lockedUntil.value
  }

  lemma LockedIsDenied(s: Limiter, ip: string, start: int, now: int, u: int)
    requires LockedFor(s, ip, start, u)
    ensures Denied(s, ip, now, u)
  {
  }

  lemma StepKeepsLock(s: Limiter, step: Step, ip: string, start: int, now: int, u: int)
    requires LockedFor(s, ip, start, u) && u <= now + LOCKOUT
    requires !step.op.Reset? ==> now <= step.op.now < u
    requires !Unlocks(step, ip, start)
    ensures LockedFor(Next(s, step), ip, start, u)
  {
  }

  lemma StepUnlocks(s: Limiter, step: Step, ip: string, start: int, now: int, u: int)
    requires LockedFor(s, ip, start, u) && now < u
    requires !step.op.Reset? ==> now <= step.op.now < u
    requires Unlocks(step, ip, start)
    ensures !Denied(Next(s, step), ip, TimeOf(step.op, now), u)
  {
    assert Allowed(Next(s, step), ip, TimeOf(step.op, now));
  }

  /** A lockout that is still on holds to its end, through any calls by any IPs, exactly when none of them unlocks. */
  lemma {:induction false} LockoutHoldsExactly(s: Limiter, steps: seq<Step>, ip: string, start: int, now: int, u: int)
    requires LockedFor(s, ip, start, u) && now < u <= now + LOCKOUT
    requires Timed(steps, now) && AllBefore(steps, u)
    ensures AlwaysDenied(s, steps, ip, now, u) <==> NoneUnlocks(steps, ip, start)
    decreases |steps|
  {
    LockedIsDenied(s, ip, start, now, u);
    if steps != [] {
      var later := TimeOf(steps[0].op, now);
      assert AllBefore(steps[1..], u);
      assert NoneUnlocks(steps, ip, start) <==> !Unlocks(steps[0], ip, start) && NoneUnlocks(steps[1..], ip, start) by {
        assert forall i :: 0 <= i < |steps| - 1 ==> steps[1..][i] == steps[i + 1];
        assert forall i :: 0 < i < |steps| ==> steps[i] == steps[1..][i - 1];
      }
      if Unlocks(steps[0], ip, start) {
        StepUnlocks(s, steps[0], ip, start, now, u);
      } else {
        StepKeepsLock(s, steps[0], ip, start, now, u);
        LockoutHoldsExactly(Next(s, steps[0]), steps[1..], ip, start, later, u);
      }
    }
  }

  /** Eleven minutes into a fifteen-minute lockout, one failure of a request admitted before lets the IP in again. */
  lemma LateFailureUnlocks(ip: string)
    ensures var s := Limiter(map[ip := Rec(5, 0, Some(LOCKOUT))], Some(0));
            var late := Step(Fail(ip, 660 * SECOND), None);
            !Allowed(s, ip, 660 * SECOND) && Allowed(Next(s, late), ip, 660 * SECOND)
  {
    var s := Limiter(map[ip := Rec(5, 0, Some(LOCKOUT))], Some(0));
    LockedIsDenied(s, ip, 0, 0, LOCKOUT);
    StepUnlocks(s, Step(Fail(ip, 660 * SECOND), None), ip, 0, 0, LOCKOUT);
  }
}
