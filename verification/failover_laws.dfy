/** What the failover loop promises: bounded calls, an orderly end, and coverage of the pool. */
module FailoverLaws {
  import opened Base
  import opened Rings
  import opened Accounts
  import opened Failover

  // ---------------------------------------------------------------- what every request can rely on

  /** The answer to call i of this trace. */
  function ReplyTo(w: World, accounts: seq<Acct>, calls: seq<nat>, first: nat, i: nat): Outcome
    requires i < |calls| && calls[i] < |accounts|
  {
    w.reply(first + i, accounts[calls[i]].key)
  }

  ghost predicate Orderly(policy: Policy, w: World, accounts: seq<Acct>, sent: Sent, first: nat, last: Option<Outcome>) {
    var calls := sent.calls;
    && (forall i :: 0 <= i < |calls| ==> calls[i] < |accounts|)
    && (forall i :: 0 <= i < |calls| - 1 ==> React(policy, ReplyTo(w, accounts, calls, first, i)) == Rotate)
    && match sent.end
       case NoAccounts => false
       case Served => calls != [] && ReplyTo(w, accounts, calls, first, |calls| - 1).Success?
       case Refused(o) => calls != [] && o == ReplyTo(w, accounts, calls, first, |calls| - 1) && React(policy, o) == GiveUp
       case Exhausted(o) =>
         if calls == [] then last == Some(o)
         else o == ReplyTo(w, accounts, calls, first, |calls| - 1) && React(policy, o) == Rotate
       case AllCooling(_) => calls == [] && last.None?
  }

  lemma {:induction false} AttemptsAreOrderly(policy: Policy, w: World, accounts: seq<Acct>, cursor: nat, attempt: nat, attempts: nat, last: Option<Outcome>)
    ensures var sent := Attempts(policy, w, accounts, cursor, attempt, attempts, last);
            |sent.calls| <= Max(attempts - attempt, 0) && Orderly(policy, w, accounts, sent, attempt, last)
    decreases attempts - attempt
  {
    if attempt < attempts {
      var pick := Pick(accounts, cursor, w.clock(2 * attempt));
      if pick.Some? {
        var o := w.reply(attempt, accounts[pick.value].key);
        var after := AfterAttempt(policy, w, accounts, pick.value, attempt);
        var rest := Rest(policy, w, after, NextFor(accounts, cursor), attempt, attempts, o);
        UnfoldCall(policy, w, accounts, cursor, attempt, attempts, last);
        KeysStay(policy, w, accounts, pick.value, attempt);
        if React(policy, o) == Rotate {
          AttemptsAreOrderly(policy, w, after, NextFor(accounts, cursor), attempt + 1, attempts, Some(o));
        }
        OrderlyCons(policy, w, accounts, after, pick.value, o, rest, attempt, last);
      } else {
        UnfoldStop(policy, w, accounts, cursor, attempt, attempts, last);
      }
    }
  }

  lemma KeysStay(policy: Policy, w: World, accounts: seq<Acct>, j: nat, attempt: nat)
    requires j < |accounts|
    ensures var after := AfterAttempt(policy, w, accounts, j, attempt);
            |after| == |accounts| && forall i :: 0 <= i < |accounts| ==> after[i].key == accounts[i].key
  {
  }

  lemma OrderlyCons(policy: Policy, w: World, accounts: seq<Acct>, after: seq<Acct>, j: nat, o: Outcome, rest: Sent, first: nat, last: Option<Outcome>)
    requires j < |accounts| == |after| && o == w.reply(first, accounts[j].key)
    requires forall i :: 0 <= i < |accounts| ==> after[i].key == accounts[i].key
    requires match React(policy, o)
             case Serve => rest.calls == [] && rest.end == Served
             case GiveUp => rest.calls == [] && rest.end == Refused(o)
             case Rotate => Orderly(policy, w, after, rest, first + 1, Some(o))
    ensures Orderly(policy, w, accounts, Prepend([j], rest), first, last)
  {
    var calls := [j] + rest.calls;
    assert forall i :: 0 < i < |calls| ==> calls[i] == rest.calls[i - 1];
    forall i | 0 <= i < |calls| - 1
      ensures React(policy, ReplyTo(w, accounts, calls, first, i)) == Rotate
    {
      if i > 0 {
        assert ReplyTo(w, accounts, calls, first, i) == ReplyTo(w, after, rest.calls, first + 1, i - 1);
      }
    }
  }

  /** At most one call per enabled account; nothing is called after a success or a request-scoped error; the
      request ends with the answer to its last call. */
  lemma SendIsOrderly(policy: Policy, w: World, accounts: seq<Acct>, cursor: nat)
    ensures var sent := Send(policy, w, accounts, cursor);
            && |sent.calls| <= |EnabledSet(accounts)|
            && (sent.end.NoAccounts? <==> EnabledSet(accounts) == {})
            && (EnabledSet(accounts) != {} ==> Orderly(policy, w, accounts, sent, 0, None))
  {
    AttemptsAreOrderly(policy, w, accounts, cursor, 0, |EnabledSet(accounts)|, None);
  }

  // ---------------------------------------------------------------- coverage

  ghost predicate Monotone(clock: nat -> int) {
    forall a: nat, b: nat :: a <= b ==> clock(a) <= clock(b)
  }

  predicate AllEnabled(accounts: seq<Acct>) {
    forall j :: 0 <= j < |accounts| ==> accounts[j].enabled
  }

  predicate FailedOver(end: End) {
    end.Exhausted? || end.AllCooling?
  }

  predicate EnabledAt(accounts: seq<Acct>, cursor: nat, d: nat)
    requires accounts != []
  {
    accounts[At(cursor, d, |accounts|)].enabled
  }

  /** Pick stops at the first eligible ring position. */
  lemma {:induction false} PickIsFirst(accounts: seq<Acct>, cursor: nat, i: nat, now: int, d: nat) returns (e: nat)
    requires i <= d < |accounts| && Eligible(accounts[At(cursor, d, |accounts|)], now)
    ensures i <= e <= d && PickFrom(accounts, cursor, i, now) == Some(At(cursor, e, |accounts|))
    decreases |accounts| - i
  {
    if Eligible(accounts[At(cursor, i, |accounts|)], now) {
      e := i;
    } else {
      e := PickIsFirst(accounts, cursor, i + 1, now, d);
    }
  }

  /** Only disabled accounts stand at ring positions m to d - 1. */
  predicate AllOff(accounts: seq<Acct>, cursor: nat, m: nat, d: nat)
    requires accounts != []
  {
    forall i: nat :: m <= i < d ==> !EnabledAt(accounts, cursor, i)
  }

  /** An account d ring positions on is tried when the attempts that are left reach position m and only disabled
      accounts stand between m and d. */
  lemma {:induction false} Covers(policy: Policy, w: World, accounts: seq<Acct>, cursor: nat, attempt: nat, attempts: nat, last: Option<Outcome>, m: nat, d: nat)
    requires m <= d < |accounts| && m < attempts - attempt && cursor + (attempts - attempt) <= CURSOR_RANGE
    requires Monotone(w.clock) && Eligible(accounts[At(cursor, d, |accounts|)], w.clock(2 * attempt))
    requires AllOff(accounts, cursor, m, d)
    requires FailedOver(Attempts(policy, w, accounts, cursor, attempt, attempts, last).end)
    ensures At(cursor, d, |accounts|) in Attempts(policy, w, accounts, cursor, attempt, attempts, last).calls
    decreases attempts - attempt
  {
    var j, now := At(cursor, d, |accounts|), w.clock(2 * attempt);
    var e := PickIsFirst(accounts, cursor, 0, now, d);
    var p := At(cursor, e, |accounts|);
    UnfoldCall(policy, w, accounts, cursor, attempt, attempts, last);
    if p != j {
      assert EnabledAt(accounts, cursor, e);
      var o := w.reply(attempt, accounts[p].key);
      var after := AfterAttempt(policy, w, accounts, p, attempt);
      StillDisabled(policy, w, accounts, cursor, p, attempt, m, d);
      assert At(cursor + 1, d - 1, |after|) == j;
      Covers(policy, w, after, cursor + 1, attempt + 1, attempts, Some(o), m - 1, d - 1);
    }
  }

  lemma StillDisabled(policy: Policy, w: World, accounts: seq<Acct>, cursor: nat, p: nat, attempt: nat, m: nat, d: nat)
    requires p < |accounts| && 0 < m <= d && AllOff(accounts, cursor, m, d)
    ensures AllOff(AfterAttempt(policy, w, accounts, p, attempt), cursor + 1, m - 1, d - 1)
  {
    var after, next := AfterAttempt(policy, w, accounts, p, attempt), cursor + 1;
    forall i: nat | m - 1 <= i < d - 1 ensures !EnabledAt(after, next, i) {
      assert !EnabledAt(accounts, cursor, i + 1);
      assert At(next, i, |accounts|) == At(cursor, i + 1, |accounts|);
    }
  }

  lemma {:induction false} AllEnabledCount(accounts: seq<Acct>)
    requires AllEnabled(accounts)
    ensures |EnabledSet(accounts)| == |accounts|
  {
    if accounts != [] {
      var init := accounts[..|accounts| - 1];
      assert forall j :: 0 <= j < |init| ==> init[j].enabled == accounts[j].enabled;
      AllEnabledCount(init);
      assert EnabledSet(accounts) == EnabledSet(init) + {|accounts| - 1};
    }
  }

  /** A request that ends with a failover error has tried every enabled account that was not cooling down when it
      started and stands closer to the cursor than there are enabled accounts, whatever else is disabled. */
  lemma NearAccountsAreTried(policy: Policy, w: World, accounts: seq<Acct>, cursor: nat, d: nat)
    requires d < |EnabledSet(accounts)| && d < |accounts| && cursor + |accounts| <= CURSOR_RANGE
    requires Monotone(w.clock) && Eligible(accounts[At(cursor, d, |accounts|)], w.clock(0))
    requires FailedOver(Send(policy, w, accounts, cursor).end)
    ensures At(cursor, d, |accounts|) in Send(policy, w, accounts, cursor).calls
  {
    FewEnabled(accounts);
    Covers(policy, w, accounts, cursor, 0, |EnabledSet(accounts)|, None, d, d);
  }

  lemma {:induction false} FewEnabled(accounts: seq<Acct>)
    ensures |EnabledSet(accounts)| <= |accounts|
  {
    if accounts != [] {
      var init := accounts[..|accounts| - 1];
      assert forall j :: 0 <= j < |init| ==> init[j].enabled == accounts[j].enabled;
      FewEnabled(init);
      assert EnabledSet(accounts) <= EnabledSet(init) + {|accounts| - 1};
      assert EnabledSet(accounts) == EnabledSet(init) || EnabledSet(accounts) == EnabledSet(init) + {|accounts| - 1};
    }
  }

  /** With every account enabled that is every account not cooling down when it started. */
  lemma FailoverTriesEveryone(policy: Policy, w: World, accounts: seq<Acct>, cursor: nat, j: nat)
    requires j < |accounts| && AllEnabled(accounts) && Monotone(w.clock) && cursor + |accounts| <= CURSOR_RANGE
    requires !Cooling(accounts[j], w.clock(0))
    requires FailedOver(Send(policy, w, accounts, cursor).end)
    ensures j in Send(policy, w, accounts, cursor).calls
  {
    AllEnabledCount(accounts);
    RingIsCovered(cursor, |accounts|, j);
    var d: nat :| d < |accounts| && At(cursor, d, |accounts|) == j;
    NearAccountsAreTried(policy, w, accounts, cursor, d);
  }

  lemma {:induction false} GoesAround(policy: Policy, w: World, accounts: seq<Acct>, cursor: nat, attempt: nat, attempts: nat, last: Option<Outcome>)
    requires accounts != [] && AllEnabled(accounts) && Monotone(w.clock)
    requires attempt <= attempts <= attempt + |accounts| && cursor + (attempts - attempt) <= CURSOR_RANGE
    requires Open(accounts, cursor, attempts - attempt, w.clock(2 * attempt))
    ensures var sent := Attempts(policy, w, accounts, cursor, attempt, attempts, last);
            && Around(cursor, |accounts|, sent.calls)
            && (FailedOver(sent.end) ==> |sent.calls| == attempts - attempt)
    decreases attempts - attempt
  {
    if attempt < attempts {
      var n, now := |accounts|, w.clock(2 * attempt);
      var j := At(cursor, 0, n);
      assert Ready(accounts, cursor, 0, now);
      HeadIsPicked(accounts, cursor, now);
      UnfoldCall(policy, w, accounts, cursor, attempt, attempts, last);
      var o := w.reply(attempt, accounts[j].key);
      if React(policy, o) == Rotate {
        var after := AfterAttempt(policy, w, accounts, j, attempt);
        StillOpen(policy, w, accounts, cursor, attempt, attempts - attempt);
        GoesAround(policy, w, after, cursor + 1, attempt + 1, attempts, Some(o));
        AroundNext(cursor, n, Attempts(policy, w, after, cursor + 1, attempt + 1, attempts, Some(o)).calls);
      }
    }
  }

  lemma HeadIsPicked(accounts: seq<Acct>, cursor: nat, now: int)
    requires accounts != [] && Eligible(accounts[At(cursor, 0, |accounts|)], now)
    ensures Pick(accounts, cursor, now) == Some(At(cursor, 0, |accounts|))
  {
  }

  /** These calls go around the ring from the cursor. */
  predicate Around(cursor: nat, n: nat, calls: seq<nat>)
    requires n > 0
  {
    forall i :: 0 <= i < |calls| ==> calls[i] == At(cursor, i, n)
  }

  lemma AroundNext(cursor: nat, n: nat, rest: seq<nat>)
    requires n > 0 && Around(cursor + 1, n, rest)
    ensures Around(cursor, n, [At(cursor, 0, n)] + rest)
  {
  }

  predicate Ready(accounts: seq<Acct>, cursor: nat, d: nat, now: int)
    requires accounts != []
  {
    !Cooling(accounts[At(cursor, d, |accounts|)], now)
  }

  /** The next m positions of the ring from the cursor are not cooling. */
  ghost predicate Open(accounts: seq<Acct>, cursor: nat, m: nat, now: int)
    requires accounts != []
  {
    forall d: nat :: d < m ==> Ready(accounts, cursor, d, now)
  }

  /** An attempt at the head of the ring leaves the rest of the round open. */
  lemma StillOpen(policy: Policy, w: World, accounts: seq<Acct>, cursor: nat, attempt: nat, m: nat)
    requires accounts != [] && 0 < m <= |accounts| && Monotone(w.clock) && Open(accounts, cursor, m, w.clock(2 * attempt))
    ensures Open(AfterAttempt(policy, w, accounts, At(cursor, 0, |accounts|), attempt), cursor + 1, m - 1, w.clock(2 * (attempt + 1)))
  {
    var n, j := |accounts|, At(cursor, 0, |accounts|);
    var after := AfterAttempt(policy, w, accounts, j, attempt);
    var next, later := cursor + 1, w.clock(2 * (attempt + 1));
    forall d: nat | d < m - 1 ensures Ready(after, next, d, later) {
      assert Ready(accounts, cursor, d + 1, w.clock(2 * attempt));
      assert At(cursor + 1, d, n) == At(cursor, d + 1, n);
      RingIsInjective(cursor, n, d + 1, 0);
    }
  }

  /** When none was cooling either, the calls go once around the ring in order, each account exactly once. */
  lemma FailoverGoesAround(policy: Policy, w: World, accounts: seq<Acct>, cursor: nat)
    requires accounts != [] && AllEnabled(accounts) && Monotone(w.clock) && cursor + |accounts| <= CURSOR_RANGE
    requires forall j :: 0 <= j < |accounts| ==> !Cooling(accounts[j], w.clock(0))
    ensures var sent := Send(policy, w, accounts, cursor);
            && Around(cursor, |accounts|, sent.calls)
            && (forall i, h :: 0 <= i < h < |sent.calls| ==> sent.calls[i] != sent.calls[h])
            && (FailedOver(sent.end) ==> |sent.calls| == |accounts|)
  {
    AllEnabledCount(accounts);
    assert 0 in EnabledSet(accounts);
    GoesAround(policy, w, accounts, cursor, 0, |accounts|, None);
    SendIsOrderly(policy, w, accounts, cursor);
    var calls := Send(policy, w, accounts, cursor).calls;
    forall i, h | 0 <= i < h < |calls| ensures calls[i] != calls[h] {
      RingIsInjective(cursor, |accounts|, i, h);
    }
  }
}
