/** What an IP is answered, read off the times of its own failed logins. */
module RateLimitWindow {
  import opened Base
  import opened RateLimit

  // ---------------------------------------------------------------- the list of recent failures

  /** Five failures lock for a quarter of an hour from the last one. */
  function Lock(failures: seq<int>): Option<int> {
    if |failures| >= 5 then Some(failures[|failures| - 1] + 900_000_000_000) else None
  }

  /** Ten minutes after the first of them they no longer count. */
  predicate Over(failures: seq<int>, now: int) {
    failures != [] && now - failures[0] > 600_000_000_000
  }

  /** Asking clears what is over, a lock included; a failure starts a new list when the old one is over. */
  function Remembered(failures: seq<int>, op: Op, ip: string): seq<int> {
    if op.ip != ip then failures
    else match op
      case Reset(_) => []
      case Fail(_, now) => if Over(failures, now) then [now] else failures + [now]
      case Allow(_, now) =>
        match Lock(failures)
        case Some(until) => if now < until then failures else []
        case None => if Over(failures, now) then [] else failures
  }

  function Heard(failures: seq<int>, now: int): Answer {
    match Lock(failures)
    case Some(until) => if now < until then LockedUntil(until) else Admitted
    case None => Admitted
  }

  function AnswersFrom(failures: seq<int>, steps: seq<Step>, ip: string): seq<Answer>
    decreases |steps|
  {
    if steps == [] then []
    else
      var op := steps[0].op;
      (if op.Allow? && op.ip == ip then [Heard(failures, op.now)] else []) + AnswersFrom(Remembered(failures, op, ip), steps[1..], ip)
  }

  predicate Means(r: Option<Rec>, failures: seq<int>) {
    r == if failures == [] then None else Some(Rec(|failures|, failures[0], Lock(failures)))
  }

  lemma MeansNext(r: Option<Rec>, failures: seq<int>, op: Op, ip: string)
    requires Means(r, failures)
    ensures Means(NextOne(r, op, ip), Remembered(failures, op, ip))
    ensures op.Allow? && op.ip == ip ==> AnswerOne(r, op.now) == Heard(failures, op.now)
  {
  }

  lemma {:induction false} PlainAnswersMean(r: Option<Rec>, failures: seq<int>, steps: seq<Step>, ip: string)
    requires Means(r, failures)
    ensures PlainAnswers(r, steps, ip) == AnswersFrom(failures, steps, ip)
    decreases |steps|
  {
    if steps != [] {
      MeansNext(r, failures, steps[0].op, ip);
      PlainAnswersMean(NextOne(r, steps[0].op, ip), Remembered(failures, steps[0].op, ip), steps[1..], ip);
    }
  }

  /** In every history of calls by any IPs from an empty limiter, an IP whose record is never evicted is answered as its
      own failures alone say. */
  lemma AnswersAreFromFailures(steps: seq<Step>, ip: string, now: int)
    requires Timed(steps, now) && NeverEvicted(steps, ip)
    ensures Answers(INITIAL, steps, ip) == AnswersFrom([], steps, ip)
  {
    PruningIsUnobservable(INITIAL, None, steps, ip, now);
    PlainAnswersMean(None, [], steps, ip);
  }

  // ---------------------------------------------------------------- sweeps and evictions

  /** A sweep is due first, then every ten minutes, and always with 1024 records; it takes exactly the records that are
      over, locked ones when their lock is. */
  lemma SweepMeaning(s: Limiter, now: int, ip: string)
    ensures var due := s.lastSweep.None? || now - s.lastSweep.value >= 600_000_000_000 || |s.fails| >= 1024;
            Lookup(Pruned(s, now).fails, ip) ==
            match Lookup(s.fails, ip)
            case None => None
            case Some(Rec(count, start, Some(until))) => if due && now > until then None else Some(Rec(count, start, Some(until)))
            case Some(Rec(count, start, None)) => if due && now - start > 600_000_000_000 then None else Some(Rec(count, start, None))
  {
  }

  /** Only a new IP's failure evicts, and only from a map that still holds 1024 records. */
  lemma EvictionMeaning(s: Limiter, step: Step)
    requires Legal(s, step) && step.victim.Some?
    ensures step.op.Fail? && step.op.ip !in Pruned(s, step.op.now).fails && |Pruned(s, step.op.now).fails| >= 1024
  {
  }
}
