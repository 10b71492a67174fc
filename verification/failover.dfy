/** The keyed failover loops: cc.go Send and the two zen.go lanes, over one pool with no other user. */
module Failover {
  import opened Base
  import opened Rings
  import opened Accounts

  /** The two gateways differ in what they retry and in what they record. */
  datatype Policy = Cmdcode | Zen

  datatype Reaction = Serve | GiveUp | Rotate

  /** What attempt i gets from the upstream for a key, and the clock readings of the request. */
  datatype World = World(reply: (nat, string) -> Outcome, clock: nat -> int)

  predicate IsNonRetryableStatus(code: int) {
    400 <= code <= 499 && code != 401 && code != 403 && code != 429
  }

  /** shouldFailover for cmdcode; the error cases of the zen loops otherwise. */
  function React(policy: Policy, o: Outcome): Reaction {
    match o
    case Success => Serve
    case Canceled(_) => GiveUp
    case InvalidRequest(_) => if policy == Cmdcode then GiveUp else Rotate
    case Transport(_) => Rotate
    case Status(_, code, _) =>
      if policy == Cmdcode then (if code == 401 || code == 403 || code == 429 || code >= 500 then Rotate else GiveUp)
      else if IsNonRetryableStatus(code) then GiveUp else Rotate
  }

  /** The account after the attempt. Zen neither blames nor cools a key for a request-scoped failure. */
  function Recorded(policy: Policy, a: Acct, o: Outcome, now: int): Acct {
    if o.Success? then Succeeded(a, now)
    else if policy == Cmdcode || React(policy, o) == Rotate then FailedWith(a, o, now)
    else if o.Status? && o.code == 402 then Succeeded(a, now)
    else a
  }

  datatype End =
    | NoAccounts
    | Served
    | Refused(error: Outcome)
    | Exhausted(last: Outcome)
    | AllCooling(wait: nat)

  datatype Sent = Sent(calls: seq<nat>, end: End, accounts: seq<Acct>, cursor: nat)

  function Stopped(w: World, accounts: seq<Acct>, cursor: nat, attempt: nat, last: Option<Outcome>): Sent {
    Sent([], if last.Some? then Exhausted(last.value) else AllCooling(EarliestWait(accounts, w.clock(2 * attempt + 1))),
         accounts, cursor)
  }

  /** The loop from one attempt on; calls are positions in the pool. */
  function Attempts(policy: Policy, w: World, accounts: seq<Acct>, cursor: nat, attempt: nat, attempts: nat, last: Option<Outcome>): Sent
    decreases attempts - attempt, 1
  {
    if attempt >= attempts then Stopped(w, accounts, cursor, attempt, last)
    else
      var pick := Pick(accounts, cursor, w.clock(2 * attempt));
      var next := NextFor(accounts, cursor);
      if pick.None? then Stopped(w, accounts, next, attempt, last)
      else
        var j := pick.value;
        var after := AfterAttempt(policy, w, accounts, j, attempt);
        var rest := Rest(policy, w, after, next, attempt, attempts, w.reply(attempt, accounts[j].key));
        rest.(calls := [j] + rest.calls)
  }

  function Send(policy: Policy, w: World, accounts: seq<Acct>, cursor: nat): Sent {
    if EnabledSet(accounts) == {} then Sent([], NoAccounts, accounts, cursor)
    else Attempts(policy, w, accounts, cursor, 0, |EnabledSet(accounts)|, None)
  }

  function NextFor(accounts: seq<Acct>, cursor: nat): nat {
    if accounts == [] then cursor else NextCursor(cursor)
  }

  function AfterAttempt(policy: Policy, w: World, accounts: seq<Acct>, j: nat, attempt: nat): seq<Acct>
    requires j < |accounts|
  {
    accounts[j := Recorded(policy, accounts[j], w.reply(attempt, accounts[j].key), w.clock(2 * attempt + 1))]
  }

  /** One attempt: acquire, call, record. */
  method TryOnce(policy: Policy, w: World, pool: AccountPool, attempt: nat, ghost accounts: seq<Acct>, ghost cursor: nat)
    returns (acct: Account?, o: Outcome, ghost pick: Option<nat>)
    requires pool.Valid() && pool.View() == accounts && pool.cursor == cursor
    modifies pool`cursor, pool.accounts
    ensures pool.Valid() && pool.accounts == old(pool.accounts) && pool.cursor == NextFor(accounts, cursor)
    ensures pick == Pick(accounts, cursor, w.clock(2 * attempt))
    ensures pick.None? ==> acct == null && pool.View() == accounts
    ensures pick.Some? ==>
      && acct == pool.accounts[pick.value] && o == w.reply(attempt, accounts[pick.value].key)
      && pool.View() == AfterAttempt(policy, w, accounts, pick.value, attempt)
  {
    pick := Pick(accounts, cursor, w.clock(2 * attempt));
    acct := pool.Acquire(w.clock(2 * attempt));
    assert pool.View() == accounts;
    o := Success;
    if acct == null {
      return;
    }
    ghost var j := pick.value;
    var now := w.clock(2 * attempt + 1);
    o := w.reply(attempt, acct.key);
    var reaction := React(policy, o);
    if o.Success? || (policy == Zen && reaction == GiveUp && o.Status? && o.code == 402) {
      acct.RecordSuccess(now);
    } else if policy == Cmdcode || reaction == Rotate {
      acct.RecordFailure(o, now);
    }
    assert acct.State() == Recorded(policy, accounts[j], o, now);
    assert pool.View() == AfterAttempt(policy, w, accounts, j, attempt);
  }

  /** One turn of the loop: done once the request ends here. */
  method Turn(policy: Policy, w: World, pool: AccountPool, attempt: nat, attempts: nat, last: Option<Outcome>, ghost accounts: seq<Acct>)
    returns (acct: Account?, latest: Option<Outcome>, done: Option<End>, ghost rest: Sent, ghost pick: nat)
    requires pool.Valid() && attempt < attempts && pool.View() == accounts
    modifies pool`cursor, pool.accounts
    ensures pool.Valid() && pool.accounts == old(pool.accounts)
    ensures rest == Remaining(policy, w, pool.View(), pool.cursor, attempt + 1, attempts, latest, done)
    ensures Settled(done, latest)
    ensures acct == null ==>
              done.Some? && latest == last && Remaining(policy, w, accounts, old(pool.cursor), attempt, attempts, last, None) == rest
    ensures acct != null ==>
              && latest.Some? && Called(pool.accounts, [pick], acct)
              && Remaining(policy, w, accounts, old(pool.cursor), attempt, attempts, last, None) == Prepend([pick], rest)
  {
    ghost var cursor := pool.cursor;
    ghost var next := NextFor(accounts, cursor);
    var tried, o, picked := TryOnce(policy, w, pool, attempt, accounts, cursor);
    if tried == null {
      UnfoldStop(policy, w, accounts, cursor, attempt, attempts, last);
      var gone := GiveOver(w, pool, attempt, last, accounts, next);
      return null, last, Some(gone), Sent([], gone, accounts, next), 0;
    }
    ghost var after := AfterAttempt(policy, w, accounts, picked.value, attempt);
    UnfoldCall(policy, w, accounts, cursor, attempt, attempts, last);
    rest := Rest(policy, w, after, next, attempt, attempts, o);
    return tried, Some(o), EndOf(React(policy, o), o), rest, picked.value;
  }

  function Remaining(policy: Policy, w: World, accounts: seq<Acct>, cursor: nat, attempt: nat, attempts: nat, last: Option<Outcome>, done: Option<End>): Sent {
    if done.Some? then Sent([], done.value, accounts, cursor) else Attempts(policy, w, accounts, cursor, attempt, attempts, last)
  }

  /** The loop of attempts; done is not set when they run out. */
  method RunAttempts(policy: Policy, w: World, pool: AccountPool, attempts: nat)
    returns (ghost calls: seq<nat>, last: Option<Outcome>, done: Option<End>, acct: Account?, attempt: nat)
    requires pool.Valid()
    modifies pool`cursor, pool.accounts
    ensures pool.Valid() && pool.accounts == old(pool.accounts) && (done.Some? || attempt >= attempts)
    ensures Attempts(policy, w, old(pool.View()), old(pool.cursor), 0, attempts, None) ==
            Prepend(calls, Remaining(policy, w, pool.View(), pool.cursor, attempt, attempts, last, done))
    ensures Settled(done, last) && Answered(last, pool.accounts, calls, acct)
  {
    calls, acct := [], null;
    attempt, last, done := 0, None, None;
    ghost var goal := Attempts(policy, w, pool.View(), pool.cursor, 0, attempts, None);
    while attempt < attempts && done.None?
      invariant pool.Valid() && pool.accounts == old(pool.accounts)
      invariant goal == Prepend(calls, Remaining(policy, w, pool.View(), pool.cursor, attempt, attempts, last, done))
      invariant Settled(done, last) && Answered(last, pool.accounts, calls, acct)
    {
      acct, last, done, calls := Advance(policy, w, pool, attempt, attempts, last, acct, calls);
      attempt := attempt + 1;
    }
  }

  /** One turn, with the calls made so far and the account called last. */
  method Advance(policy: Policy, w: World, pool: AccountPool, attempt: nat, attempts: nat, last: Option<Outcome>, previous: Account?, ghost made: seq<nat>)
    returns (acct: Account?, latest: Option<Outcome>, done: Option<End>, ghost calls: seq<nat>)
    requires pool.Valid() && attempt < attempts && Answered(last, pool.accounts, made, previous)
    modifies pool`cursor, pool.accounts
    ensures pool.Valid() && pool.accounts == old(pool.accounts)
    ensures Settled(done, latest) && Answered(latest, pool.accounts, calls, acct)
    ensures Prepend(made, Remaining(policy, w, old(pool.View()), old(pool.cursor), attempt, attempts, last, None)) ==
            Prepend(calls, Remaining(policy, w, pool.View(), pool.cursor, attempt + 1, attempts, latest, done))
  {
    var tried;
    ghost var rest, pick;
    tried, latest, done, rest, pick := Turn(policy, w, pool, attempt, attempts, last, pool.View());
    if tried == null {
      return previous, latest, done, made;
    }
    PrependNext(made, pick, rest);
    return tried, latest, done, made + [pick];
  }

  ghost predicate Answered(last: Option<Outcome>, accounts: seq<Account>, calls: seq<nat>, acct: Account?) {
    if last.None? then acct == null else Called(accounts, calls, acct)
  }

  function EndOf(reaction: Reaction, o: Outcome): Option<End> {
    match reaction
    case Serve => Some(Served)
    case GiveUp => Some(Refused(o))
    case Rotate => None
  }

  /** The loop ran out of attempts or of accounts. */
  method GiveOver(w: World, pool: AccountPool, attempt: nat, last: Option<Outcome>, ghost accounts: seq<Acct>, ghost cursor: nat)
    returns (end: End)
    requires pool.Valid() && pool.View() == accounts && pool.cursor == cursor
    ensures Sent([], end, accounts, cursor) == Stopped(w, accounts, cursor, attempt, last)
    ensures !end.NoAccounts? && !end.Served? && !end.Refused? && (end.AllCooling? <==> last.None?)
  {
    if last.Some? {
      return Exhausted(last.value);
    }
    var wait := pool.EarliestRateLimitWait(w.clock(2 * attempt + 1));
    return AllCooling(wait);
  }

  /** What is left of a request once attempt has been answered with o. */
  function Rest(policy: Policy, w: World, after: seq<Acct>, next: nat, attempt: nat, attempts: nat, o: Outcome): Sent
    requires attempt < attempts
    decreases attempts - attempt, 0
  {
    match React(policy, o)
    case Serve => Sent([], Served, after, next)
    case GiveUp => Sent([], Refused(o), after, next)
    case Rotate => Attempts(policy, w, after, next, attempt + 1, attempts, Some(o))
  }

  lemma UnfoldStop(policy: Policy, w: World, accounts: seq<Acct>, cursor: nat, attempt: nat, attempts: nat, last: Option<Outcome>)
    requires attempt < attempts && Pick(accounts, cursor, w.clock(2 * attempt)).None?
    ensures Attempts(policy, w, accounts, cursor, attempt, attempts, last) ==
            Stopped(w, accounts, NextFor(accounts, cursor), attempt, last)
  {
  }

  lemma UnfoldCall(policy: Policy, w: World, accounts: seq<Acct>, cursor: nat, attempt: nat, attempts: nat, last: Option<Outcome>)
    requires attempt < attempts && Pick(accounts, cursor, w.clock(2 * attempt)).Some?
    ensures var j := Pick(accounts, cursor, w.clock(2 * attempt)).value;
            var after := AfterAttempt(policy, w, accounts, j, attempt);
            var rest := Rest(policy, w, after, NextFor(accounts, cursor), attempt, attempts, w.reply(attempt, accounts[j].key));
            Attempts(policy, w, accounts, cursor, attempt, attempts, last) == Prepend([j], rest)
  {
  }

  predicate Settled(done: Option<End>, last: Option<Outcome>) {
    done.Some? ==> !done.value.NoAccounts? && (done.value.AllCooling? <==> last.None?)
  }

  /** acct is what the last call went to. */
  ghost predicate Called(accounts: seq<Account>, calls: seq<nat>, acct: Account?) {
    calls != [] && calls[|calls| - 1] < |accounts| && acct == accounts[calls[|calls| - 1]]
  }

  /** CCClient.Send and the loops of ChatWithHeaders and chatResponses. acct produced the response or error. */
  method SendThroughPool(policy: Policy, w: World, pool: AccountPool) returns (ghost calls: seq<nat>, end: End, acct: Account?)
    requires pool.Valid()
    modifies pool`cursor, pool.accounts
    ensures pool.Valid() && pool.accounts == old(pool.accounts)
    ensures Sent(calls, end, pool.View(), pool.cursor) == Send(policy, w, old(pool.View()), old(pool.cursor))
    ensures end.NoAccounts? || end.AllCooling? ==> acct == null
    ensures !end.NoAccounts? && !end.AllCooling? ==> Called(pool.accounts, calls, acct)
  {
    var attempts := pool.EnabledCount();
    if attempts == 0 {
      return [], NoAccounts, null;
    }
    var last, done, attempt;
    calls, last, done, acct, attempt := RunAttempts(policy, w, pool, attempts);
    end := Served;
    if done.Some? {
      end := done.value;
    } else {
      end := GiveOver(w, pool, attempt, last, pool.View(), pool.cursor);
    }
  }

  function Prepend(calls: seq<nat>, rest: Sent): Sent {
    rest.(calls := calls + rest.calls)
  }

  lemma PrependNext(calls: seq<nat>, j: nat, rest: Sent)
    ensures Prepend(calls, Prepend([j], rest)) == Prepend(calls + [j], rest)
  {
  }
}
