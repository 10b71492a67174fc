/** ratelimit.go: failed admin logins per client IP, with lazy pruning and bounded memory. */
module RateLimit {
  import opened Base

  const SECOND: int := 1_000_000_000
  const FAIL_LIMIT: nat := 5
  const WINDOW: int := 600 * SECOND
  const LOCKOUT: int := 900 * SECOND
  const PRUNE_THRESHOLD: nat := 1024

  datatype Rec = Rec(count: nat, windowStart: int, lockedUntil: Option<int>)

  /** lastSweep is None before the first sweep. */
  datatype Limiter = Limiter(fails: map<string, Rec>, lastSweep: Option<int>)

  /** Expired as pruning sees it: a lock ends a nanosecond later here than it does for Allow. */
  predicate Expired(r: Rec, now: int) {
    if r.lockedUntil.Some? then now > r.lockedUntil.value else now - r.windowStart > WINDOW
  }

  predicate SweepDue(s: Limiter, now: int) {
    && s.fails != map[]
    && (s.lastSweep.None? || now - s.lastSweep.value >= WINDOW || |s.fails| >= PRUNE_THRESHOLD)
  }

  function Pruned(s: Limiter, now: int): Limiter {
    if SweepDue(s, now) then Limiter(map ip | ip in s.fails && !Expired(s.fails[ip], now) :: s.fails[ip], Some(now)) else s
  }

  // ---------------------------------------------------------------- one IP, never pruned

  /** A single IP's record under Allow, without any pruning. */
  function AllowOne(r: Option<Rec>, now: int): (a: (bool, Option<Rec>))
    ensures !a.0 ==> r.Some? && r.value.lockedUntil.Some? && now < r.value.lockedUntil.value
  {
    match r
    case None => (true, None)
    case Some(rec) =>
      if rec.lockedUntil.Some? then (if now < rec.lockedUntil.value then (false, r) else (true, None))
      else if now - rec.windowStart > WINDOW then (true, None)
      else (true, r)
  }

  /** What the IP learns: that it may try, or when its lockout ends. */
  datatype Answer = Admitted | LockedUntil(time: int)

  function AnswerOne(r: Option<Rec>, now: int): Answer {
    if AllowOne(r, now).0 then Admitted else LockedUntil(r.value.lockedUntil.value)
  }

  function FailOne(r: Option<Rec>, now: int): Rec {
    var rec := if r.None? || now - r.value.windowStart > WINDOW then Rec(0, now, None) else r.value;
    Rec(rec.count + 1, rec.windowStart, if rec.count + 1 >= FAIL_LIMIT then Some(now + LOCKOUT) else rec.lockedUntil)
  }

  // ---------------------------------------------------------------- the whole map

  datatype Op = Allow(ip: string, now: int) | Fail(ip: string, now: int) | Reset(ip: string)

  /** One call, with the IP evicted on the way, if any. */
  datatype Step = Step(op: Op, victim: Option<string>)

  function Lookup(fails: map<string, Rec>, ip: string): Option<Rec> {
    if ip in fails then Some(fails[ip]) else None
  }

  function Put(fails: map<string, Rec>, ip: string, r: Option<Rec>): map<string, Rec> {
    if r.Some? then fails[ip := r.value] else fails - {ip}
  }

  function Without(fails: map<string, Rec>, victim: Option<string>): map<string, Rec> {
    if victim.Some? then fails - {victim.value} else fails
  }

  function Allowed(s: Limiter, ip: string, now: int): bool {
    AllowOne(Lookup(Pruned(s, now).fails, ip), now).0
  }

  function AnswerTo(s: Limiter, ip: string, now: int): Answer {
    AnswerOne(Lookup(Pruned(s, now).fails, ip), now)
  }

  function Next(s: Limiter, step: Step): Limiter {
    match step.op
    case Allow(ip, now) =>
      var p := Pruned(s, now);
      p.(fails := Put(p.fails, ip, AllowOne(Lookup(p.fails, ip), now).1))
    case Fail(ip, now) =>
      var p := Pruned(s, now);
      p.(fails := Without(p.fails, step.victim)[ip := FailOne(Lookup(p.fails, ip), now)])
    case Reset(ip) => s.(fails := s.fails - {ip})
  }

  predicate Crowded(s: Limiter, op: Op) {
    op.Fail? && var p := Pruned(s, op.now).fails; op.ip !in p && |p| >= PRUNE_THRESHOLD
  }

  predicate IsOldest(fails: map<string, Rec>, ip: string) {
    ip in fails && forall other :: other in fails ==> fails[ip].windowStart <= fails[other].windowStart
  }

  /** Which evictions can happen: only when a new IP fails in a full map. The record that goes has the oldest
      window, unless a blank IP is on the map, which the search for the oldest takes for "none yet". */
  predicate Legal(s: Limiter, step: Step) {
    if !Crowded(s, step.op) then step.victim.None?
    else
      var p := Pruned(s, step.op.now).fails;
      && (step.victim.Some? ==> step.victim.value in p && step.victim.value != "")
      && ("" !in p ==> step.victim.Some? && IsOldest(p, step.victim.value))
  }

  class IpRateLimiter {
    var fails: map<string, Rec>
    var lastSweep: Option<int>

    ghost function State(): Limiter
      reads this
    {
      Limiter(fails, lastSweep)
    }

    constructor ()
      ensures State() == Limiter(map[], None)
    {
      fails, lastSweep := map[], None;
    }

    method ExpiredLocked(rec: Rec, now: int) returns (r: bool)
      ensures r == Expired(rec, now)
    {
      if rec.lockedUntil.Some? {
        return now > rec.lockedUntil.value;
      }
      return now - rec.windowStart > WINDOW;
    }

    method PruneLocked(now: int)
      modifies this
      ensures State() == Pruned(old(State()), now)
    {
      if |fails| == 0 {
        return;
      }
      if lastSweep.Some? && now - lastSweep.value < WINDOW && |fails| < PRUNE_THRESHOLD {
        return;
      }
      lastSweep := Some(now);
      var todo := fails.Keys;
      while todo != {}
        invariant todo <= old(fails).Keys && lastSweep == Some(now)
        invariant fails == map ip | ip in old(fails) && (ip in todo || !Expired(old(fails)[ip], now)) :: old(fails)[ip]
        decreases |todo|
      {
        var ip :| ip in todo;
        var expired := ExpiredLocked(fails[ip], now);
        if expired {
          fails := fails - {ip};
        }
        todo := todo - {ip};
      }
    }

    method EvictOldestLocked() returns (ghost victim: Option<string>)
      modifies this`fails
      ensures fails == Without(old(fails), victim)
      ensures victim.Some? ==> victim.value in old(fails) && victim.value != ""
      ensures "" !in old(fails) && old(fails) != map[] ==> victim.Some? && IsOldest(old(fails), victim.value)
    {
      var oldestIP, oldest := "", 0;
      var todo := fails.Keys;
      while todo != {}
        invariant todo <= fails.Keys
        invariant oldestIP == "" || (oldestIP in fails && oldest == fails[oldestIP].windowStart)
        invariant "" !in fails && oldestIP == "" ==> todo == fails.Keys
        invariant "" !in fails && oldestIP != "" ==>
                    forall ip :: ip in fails && ip !in todo ==> oldest <= fails[ip].windowStart
        decreases |todo|
      {
        var ip :| ip in todo;
        if oldestIP == "" || fails[ip].windowStart < oldest {
          oldestIP, oldest := ip, fails[ip].windowStart;
        }
        todo := todo - {ip};
      }
      victim := None;
      if oldestIP != "" {
        victim := Some(oldestIP);
        fails := fails - {oldestIP};
      }
    }

    /** The remaining lockout is read off a second, later clock reading. */
    method Allow(ip: string, now: int, later: int) returns (ok: bool, retryAfter: int)
      modifies this
      ensures State() == Next(old(State()), Step(Op.Allow(ip, now), None))
      ensures match AnswerTo(old(State()), ip, now)
              case Admitted => ok && retryAfter == 0
              case LockedUntil(time) => !ok && retryAfter == time - later && now < time
    {
      PruneLocked(now);
      if ip !in fails {
        return true, 0;
      }
      var rec := fails[ip];
      if rec.lockedUntil.Some? {
        if now < rec.lockedUntil.value {
          return false, rec.lockedUntil.value - later;
        }
        fails := fails - {ip};
        return true, 0;
      }
      if now - rec.windowStart > WINDOW {
        fails := fails - {ip};
      }
      return true, 0;
    }

    method Fail(ip: string, now: int) returns (ghost victim: Option<string>)
      modifies this
      ensures State() == Next(old(State()), Step(Op.Fail(ip, now), victim))
      ensures Legal(old(State()), Step(Op.Fail(ip, now), victim))
    {
      PruneLocked(now);
      victim := None;
      var rec := Rec(0, now, None);
      if ip in fails && now - fails[ip].windowStart <= WINDOW {
        rec := fails[ip];
      } else if ip !in fails && |fails| >= PRUNE_THRESHOLD {
        victim := EvictOldestLocked();
      }
      rec := rec.(count := rec.count + 1);
      if rec.count >= FAIL_LIMIT {
        rec := rec.(lockedUntil := Some(now + LOCKOUT));
      }
      fails := fails[ip := rec];
    }

    method Reset(ip: string)
      modifies this
      ensures State() == Next(old(State()), Step(Op.Reset(ip), None))
    {
      fails := fails - {ip};
    }
  }

  // ---------------------------------------------------------------- histories

  const INITIAL: Limiter := Limiter(map[], None)

  predicate LegalRun(s: Limiter, steps: seq<Step>)
    decreases |steps|
  {
    steps == [] || (Legal(s, steps[0]) && LegalRun(Next(s, steps[0]), steps[1..]))
  }

  function Final(s: Limiter, steps: seq<Step>): Limiter
    decreases |steps|
  {
    if steps == [] then s else Final(Next(s, steps[0]), steps[1..])
  }

  /** Clock readings never go back. */
  predicate Timed(steps: seq<Step>, now: int)
    decreases |steps|
  {
    steps == [] ||
    var op := steps[0].op;
    if op.Reset? then Timed(steps[1..], now) else now <= op.now && Timed(steps[1..], op.now)
  }

  /** The answers this IP gets. */
  function Answers(s: Limiter, steps: seq<Step>, ip: string): seq<Answer>
    decreases |steps|
  {
    if steps == [] then []
    else
      var op := steps[0].op;
      (if op.Allow? && op.ip == ip then [AnswerTo(s, ip, op.now)] else []) + Answers(Next(s, steps[0]), steps[1..], ip)
  }

  /** The same on this IP's own record, never pruned. */
  function PlainAnswers(r: Option<Rec>, steps: seq<Step>, ip: string): seq<Answer>
    decreases |steps|
  {
    if steps == [] then []
    else
      var op := steps[0].op;
      (if op.Allow? && op.ip == ip then [AnswerOne(r, op.now)] else []) + PlainAnswers(NextOne(r, op, ip), steps[1..], ip)
  }

  function NextOne(r: Option<Rec>, op: Op, ip: string): Option<Rec> {
    if op.ip != ip then r
    else match op
      case Allow(_, now) => AllowOne(r, now).1
      case Fail(_, now) => Some(FailOne(r, now))
      case Reset(_) => None
  }

  predicate NeverEvicted(steps: seq<Step>, ip: string) {
    forall i :: 0 <= i < |steps| ==> steps[i].victim != Some(ip)
  }

  predicate LockIsLong(r: Option<Rec>) {
    r.Some? && r.value.lockedUntil.Some? ==> r.value.windowStart + LOCKOUT <= r.value.lockedUntil.value
  }

  /** The map holds the plain record, or has dropped it after it expired. */
  predicate Agrees(s: Limiter, ip: string, r: Option<Rec>, now: int) {
    && LockIsLong(r)
    && (r.Some? ==> r.value.windowStart <= now)
    && (Lookup(s.fails, ip) == r || (ip !in s.fails && Expired(r.value, now)))
  }

  lemma AgreesStep(s: Limiter, step: Step, ip: string, r: Option<Rec>, now: int)
    requires Agrees(s, ip, r, now) && step.victim != Some(ip) && (!step.op.Reset? ==> now <= step.op.now)
    ensures Agrees(Next(s, step), ip, NextOne(r, step.op, ip), if step.op.Reset? then now else step.op.now)
    ensures step.op.Allow? && step.op.ip == ip ==>
              Allowed(s, ip, step.op.now) == AllowOne(r, step.op.now).0 && AnswerTo(s, ip, step.op.now) == AnswerOne(r, step.op.now)
  {
  }

  /** Pruning cannot be observed: an IP whose record is never evicted gets, in every history of calls by any
      IPs, exactly the answers of a limiter that prunes nothing, down to the end of each lockout. */
  lemma {:induction false} PruningIsUnobservable(s: Limiter, r: Option<Rec>, steps: seq<Step>, ip: string, now: int)
    requires Agrees(s, ip, r, now) && Timed(steps, now) && NeverEvicted(steps, ip)
    ensures Answers(s, steps, ip) == PlainAnswers(r, steps, ip)
    decreases |steps|
  {
    if steps != [] {
      var op := steps[0].op;
      AgreesStep(s, steps[0], ip, r, now);
      assert NeverEvicted(steps[1..], ip);
      PruningIsUnobservable(Next(s, steps[0]), NextOne(r, op, ip), steps[1..], ip, if op.Reset? then now else op.now);
    }
  }

  predicate NoBlankIp(steps: seq<Step>) {
    forall i :: 0 <= i < |steps| ==> steps[i].op.ip != ""
  }

  /** With no blank IP, no history grows the map past the threshold. */
  lemma {:induction false} MapStaysBounded(s: Limiter, steps: seq<Step>)
    requires |s.fails| <= 1024 && "" !in s.fails && LegalRun(s, steps) && NoBlankIp(steps)
    ensures |Final(s, steps).fails| <= 1024 && "" !in Final(s, steps).fails
    decreases |steps|
  {
    if steps != [] {
      StepStaysBounded(s, steps[0]);
      assert NoBlankIp(steps[1..]);
      MapStaysBounded(Next(s, steps[0]), steps[1..]);
    }
  }

  lemma StepStaysBounded(s: Limiter, step: Step)
    requires |s.fails| <= PRUNE_THRESHOLD && "" !in s.fails && Legal(s, step) && step.op.ip != ""
    ensures |Next(s, step).fails| <= PRUNE_THRESHOLD && "" !in Next(s, step).fails
  {
    if step.op.Reset? {
      FewerKeys(Next(s, step).fails, s.fails);
    } else {
      var p := Pruned(s, step.op.now).fails;
      FewerKeys(p, s.fails);
      var rest := Without(p, step.victim);
      FewerKeys(rest, p);
      if step.op.Allow? {
        var r := AllowOne(Lookup(p, step.op.ip), step.op.now).1;
        assert Next(s, step).fails.Keys <= p.Keys;
        FewerKeys(Next(s, step).fails, p);
      } else if Crowded(s, step.op) {
        assert p.Keys == rest.Keys + {step.victim.value};
        assert Next(s, step).fails.Keys == rest.Keys + {step.op.ip};
      } else if step.op.ip in p {
        assert Next(s, step).fails.Keys == p.Keys;
      } else {
        assert Next(s, step).fails.Keys == p.Keys + {step.op.ip};
      }
    }
  }

  lemma FewerKeys(a: map<string, Rec>, b: map<string, Rec>)
    requires a.Keys <= b.Keys
    ensures |a| <= |b|
  {
    assert b.Keys == a.Keys + (b.Keys - a.Keys);
    assert |a| == |a.Keys| && |b| == |b.Keys|;
  }
}
