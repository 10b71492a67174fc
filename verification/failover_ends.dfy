/** How a request through the pool ends, and what it leaves on an account, read off the replies alone. */
module FailoverEnds {
  import opened Base
  import opened Rings
  import opened Accounts
  import opened Failover
  import opened FailoverLaws

  // ---------------------------------------------------------------- the error classes

  /** The replies another account may answer better. Command Code: transport errors, 401, 403, 429 and 500 upwards.
      Zen: everything but cancellation and the other statuses from 400 to 499. */
  predicate MovesOn(policy: Policy, o: Outcome) {
    match o
    case Success => false
    case Canceled(_) => false
    case Transport(_) => true
    case InvalidRequest(_) => policy == Zen
    case Status(_, code, _) =>
      || code == 401 || code == 403 || code == 429
      || (policy == Cmdcode && code >= 500)
      || (policy == Zen && (code < 400 || code > 499))
  }

  lemma ReactMeaning(policy: Policy, o: Outcome)
    ensures React(policy, o) == Rotate <==> MovesOn(policy, o)
    ensures React(policy, o) == Serve <==> o.Success?
  {
  }

  // ---------------------------------------------------------------- how a request ends

  /** Every reply but the last makes the loop move on, and the last one decides. */
  ghost predicate EndsAsAnswered(policy: Policy, w: World, accounts: seq<Acct>, sent: Sent) {
    && (forall i :: 0 <= i < |sent.calls| ==> sent.calls[i] < |accounts|)
    && (forall i :: 0 <= i < |sent.calls| - 1 ==> MovesOn(policy, ReplyTo(w, accounts, sent.calls, 0, i)))
    && if sent.calls == [] then sent.end.AllCooling?
       else
         var o := ReplyTo(w, accounts, sent.calls, 0, |sent.calls| - 1);
         sent.end == if o.Success? then Served else if MovesOn(policy, o) then Exhausted(o) else Refused(o)
  }

  /** In any pool with an enabled account. */
  lemma AnswersDecide(policy: Policy, w: World, accounts: seq<Acct>, cursor: nat)
    requires EnabledSet(accounts) != {}
    ensures EndsAsAnswered(policy, w, accounts, Send(policy, w, accounts, cursor))
  {
    var sent := Send(policy, w, accounts, cursor);
    SendIsOrderly(policy, w, accounts, cursor);
    forall i | 0 <= i < |sent.calls| ensures React(policy, ReplyTo(w, accounts, sent.calls, 0, i)) == Rotate <==> MovesOn(policy, ReplyTo(w, accounts, sent.calls, 0, i)) {
      ReactMeaning(policy, ReplyTo(w, accounts, sent.calls, 0, i));
    }
    if sent.calls != [] {
      ReactMeaning(policy, ReplyTo(w, accounts, sent.calls, 0, |sent.calls| - 1));
    }
  }

  /** What attempt i is answered when the calls go around the ring. */
  function Answer(w: World, accounts: seq<Acct>, cursor: nat, i: nat): Outcome
    requires accounts != []
  {
    w.reply(i, accounts[At(cursor, i, |accounts|)].key)
  }

  /** Attempt i is the first whose answer does not make the loop move on. */
  ghost predicate Settles(policy: Policy, w: World, accounts: seq<Acct>, cursor: nat, i: nat)
    requires accounts != []
  {
    && i < |accounts| && !MovesOn(policy, Answer(w, accounts, cursor, i))
    && forall h: nat :: h < i ==> MovesOn(policy, Answer(w, accounts, cursor, h))
  }

  /** With every account enabled and none cooling down, the first answer that does not make the loop move on decides:
      a success is served, anything else is returned; without one, the last account's failure is. */
  lemma RepliesDecide(policy: Policy, w: World, accounts: seq<Acct>, cursor: nat)
    requires accounts != [] && AllEnabled(accounts) && Monotone(w.clock) && cursor + |accounts| <= 0x1_0000_0000_0000_0000
    requires forall j :: 0 <= j < |accounts| ==> !Cooling(accounts[j], w.clock(0))
    ensures var sent := Send(policy, w, accounts, cursor);
            && (sent.end.Served? <==> exists i: nat :: Settles(policy, w, accounts, cursor, i) && Answer(w, accounts, cursor, i).Success?)
            && (sent.end.Refused? <==> exists i: nat :: Settles(policy, w, accounts, cursor, i) && !Answer(w, accounts, cursor, i).Success?)
            && (forall i: nat :: Settles(policy, w, accounts, cursor, i) ==>
                  && Around(cursor, |accounts|, sent.calls) && |sent.calls| == i + 1
                  && (sent.end.Refused? ==> sent.end == Refused(Answer(w, accounts, cursor, i))))
            && ((forall i: nat :: !Settles(policy, w, accounts, cursor, i)) ==>
                  sent.end == Exhausted(Answer(w, accounts, cursor, |accounts| - 1)) && |sent.calls| == |accounts|)
  {
    var n, sent := |accounts|, Send(policy, w, accounts, cursor);
    assert 0 in EnabledSet(accounts);
    AnswersDecide(policy, w, accounts, cursor);
    FailoverGoesAround(policy, w, accounts, cursor);
    AllEnabledCount(accounts);
    SendIsOrderly(policy, w, accounts, cursor);
    forall i: nat | i < |sent.calls| ensures ReplyTo(w, accounts, sent.calls, 0, i) == Answer(w, accounts, cursor, i) {
    }
    var m := |sent.calls| - 1;
    if sent.end.Served? || sent.end.Refused? {
      assert Settles(policy, w, accounts, cursor, m);
      forall i: nat | Settles(policy, w, accounts, cursor, i) ensures i == m {
      }
    } else {
      forall i: nat ensures !Settles(policy, w, accounts, cursor, i) {
      }
    }
  }

  // ---------------------------------------------------------------- what a request leaves on an account

  /** The reply counts against the account; Zen leaves request-scoped failures out. */
  predicate Blames(policy: Policy, o: Outcome) {
    !o.Success? && (policy == Cmdcode || MovesOn(policy, o))
  }

  /** The reply clears the account's record; Zen also takes 402 for a sign of life. */
  predicate Clears(policy: Policy, o: Outcome) {
    o.Success? || (policy == Zen && o.Status? && o.code == 402)
  }

  /** The cooldown of a 429 in nanoseconds: as many seconds as it asks for, in int64 arithmetic, or a minute. */
  ghost predicate CoolsFor(retryAfter: Option<int>, d: int) {
    match retryAfter
    case Some(n) =>
      if n <= 0 then d == 60_000_000_000
      else -0x8000_0000_0000_0000 <= d < 0x8000_0000_0000_0000 && exists k: int :: d == n * 1_000_000_000 + k * 0x1_0000_0000_0000_0000
    case None => d == 60_000_000_000
  }

  lemma CooldownMeaning(retryAfter: Option<int>)
    ensures CoolsFor(retryAfter, CooldownOf(retryAfter))
    ensures retryAfter.Some? && 0 < retryAfter.value < 9_223_372_036 ==> CooldownOf(retryAfter) == retryAfter.value * 1_000_000_000
  {
    if retryAfter.Some? && retryAfter.value > 0 {
      var x := retryAfter.value * 1_000_000_000;
      var k := (x + 0x8000_0000_0000_0000) / 0x1_0000_0000_0000_0000;
      assert CooldownOf(retryAfter) == x + (-k) * 0x1_0000_0000_0000_0000;
    }
  }

  lemma RecordMeaning(policy: Policy, a: Acct, o: Outcome, now: int)
    ensures var b := Recorded(policy, a, o, now);
            && b.id == a.id && b.name == a.name && b.key == a.key && b.enabled == a.enabled
            && b.errors == a.errors + (if Blames(policy, o) then 1 else 0)
            && b.lastUsedAt == (if Clears(policy, o) then Some(now) else a.lastUsedAt)
            && b.lastErrorAt == (if Clears(policy, o) then None else if Blames(policy, o) then Some(now) else a.lastErrorAt)
            && (Clears(policy, o) ==> b.lastError == "")
            && (!Clears(policy, o) && !Blames(policy, o) ==> b.lastError == a.lastError)
            && (Blames(policy, o) ==> b.lastError == o.message)
            && b.authFailures == (if Clears(policy, o) then 0 else if o.Status? && o.code in {401, 403} then a.authFailures + 1 else a.authFailures)
    ensures var b := Recorded(policy, a, o, now);
            if o.Status? && o.code == 429 then b.until.Some? && CoolsFor(o.retryAfter, b.until.value - now) else b.until == a.until
  {
    if o.Status? {
      CooldownMeaning(o.retryAfter);
    }
  }
}
