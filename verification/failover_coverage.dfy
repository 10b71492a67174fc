/** Which accounts a failing request is sure to try, whatever the upstream answers and however long it takes. */
module FailoverCoverage {
  import opened Base
  import opened Rings
  import opened Accounts
  import opened Failover
  import opened FailoverLaws
  import opened FailoverDisabled

  /** This account is tried by every request that starts now and ends with a failover error. */
  ghost predicate SureToBeTried(policy: Policy, accounts: seq<Acct>, cursor: nat, now: int, j: nat) {
    forall w: World :: Monotone(w.clock) && w.clock(0) == now && FailedOver(Send(policy, w, accounts, cursor).end) ==>
      j in Send(policy, w, accounts, cursor).calls
  }

  predicate EligibleNow(accounts: seq<Acct>, cursor: nat, i: nat, now: int)
    requires accounts != []
  {
    Eligible(accounts[At(cursor, i, |accounts|)], now)
  }

  /** No account before ring position d is eligible now. */
  predicate NoneBefore(accounts: seq<Acct>, cursor: nat, d: nat, now: int)
    requires accounts != []
  {
    forall i: nat :: i < d ==> !EligibleNow(accounts, cursor, i, now)
  }

  /** With k accounts enabled, only disabled ones stand between the start of the last attempt and d, or d comes first. */
  predicate Reached(accounts: seq<Acct>, cursor: nat, now: int, d: nat)
    requires accounts != []
  {
    AllOff(accounts, cursor, Max(0, |EnabledSet(accounts)| - 1), d) || NoneBefore(accounts, cursor, d, now)
  }

  /** An account that is eligible now is sure to be tried exactly when only disabled accounts stand between it and
      where the last attempt starts to search, or when it is the first eligible one anyway. */
  lemma SureToBeTriedExactly(policy: Policy, accounts: seq<Acct>, cursor: nat, now: int, d: nat)
    requires d < |accounts| && cursor + |accounts| <= CURSOR_RANGE && EligibleNow(accounts, cursor, d, now)
    ensures SureToBeTried(policy, accounts, cursor, now, At(cursor, d, |accounts|)) <==>
            Reached(accounts, cursor, now, d)
  {
    if Reached(accounts, cursor, now, d) {
      forall w: World | Monotone(w.clock) && w.clock(0) == now && FailedOver(Send(policy, w, accounts, cursor).end)
        ensures At(cursor, d, |accounts|) in Send(policy, w, accounts, cursor).calls
      {
        ReachedIsTried(policy, w, accounts, cursor, d);
      }
    } else {
      UnreachedCanBeMissed(policy, accounts, cursor, now, d);
    }
  }

  lemma ReachedIsTried(policy: Policy, w: World, accounts: seq<Acct>, cursor: nat, d: nat)
    requires d < |accounts| && cursor + |accounts| <= CURSOR_RANGE && EligibleNow(accounts, cursor, d, w.clock(0))
    requires Reached(accounts, cursor, w.clock(0), d) && Monotone(w.clock)
    requires FailedOver(Send(policy, w, accounts, cursor).end)
    ensures At(cursor, d, |accounts|) in Send(policy, w, accounts, cursor).calls
  {
    var k := |EnabledSet(accounts)|;
    FewEnabled(accounts);
    assert At(cursor, d, |accounts|) in EnabledSet(accounts);
    if NoneBefore(accounts, cursor, d, w.clock(0)) {
      FirstIsTried(policy, w, accounts, cursor, d);
    } else {
      Covers(policy, w, accounts, cursor, 0, k, None, Min(k - 1, d), d);
    }
  }

  lemma UnreachedCanBeMissed(policy: Policy, accounts: seq<Acct>, cursor: nat, now: int, d: nat)
    requires d < |accounts| && cursor + |accounts| <= CURSOR_RANGE && EligibleNow(accounts, cursor, d, now)
    requires !Reached(accounts, cursor, now, d)
    ensures !SureToBeTried(policy, accounts, cursor, now, At(cursor, d, |accounts|))
  {
    var w := LateWorld(accounts, now);
    assert At(cursor, d, |accounts|) in EnabledSet(accounts);
    var i: nat :| |EnabledSet(accounts)| - 1 <= i < d && EnabledAt(accounts, cursor, i);
    var first: nat :| first < d && EligibleNow(accounts, cursor, first, now);
    LateWorldMisses(policy, accounts, cursor, now, first, i, d);
    LateWorldIsMonotone(accounts, now);
    Missed(policy, w, accounts, cursor, now, At(cursor, d, |accounts|));
  }

  lemma Missed(policy: Policy, w: World, accounts: seq<Acct>, cursor: nat, now: int, j: nat)
    requires Monotone(w.clock) && w.clock(0) == now && FailedOver(Send(policy, w, accounts, cursor).end)
    requires j !in Send(policy, w, accounts, cursor).calls
    ensures !SureToBeTried(policy, accounts, cursor, now, j)
  {
  }

  lemma LateWorldIsMonotone(accounts: seq<Acct>, now: int)
    ensures Monotone(LateWorld(accounts, now).clock) && LateWorld(accounts, now).clock(0) == now
  {
    var w, late := LateWorld(accounts, now), LatestUntil(accounts, now);
    assert late >= now;
    forall a: nat, b: nat | a <= b ensures w.clock(a) <= w.clock(b) {
      assert w.clock(a) == (if a == 0 then now else late) && w.clock(b) == (if b == 0 then now else late);
    }
  }

  lemma FirstIsTried(policy: Policy, w: World, accounts: seq<Acct>, cursor: nat, d: nat)
    requires d < |accounts| && EligibleNow(accounts, cursor, d, w.clock(0)) && NoneBefore(accounts, cursor, d, w.clock(0))
    requires EnabledSet(accounts) != {}
    ensures At(cursor, d, |accounts|) in Send(policy, w, accounts, cursor).calls
  {
    var e := PickIsFirst(accounts, cursor, 0, w.clock(0), d);
    assert EligibleNow(accounts, cursor, e, w.clock(0));
    UnfoldCall(policy, w, accounts, cursor, 0, |EnabledSet(accounts)|, None);
  }

  // ---------------------------------------------------------------- the world that misses an account

  function LatestUntil(accounts: seq<Acct>, now: int): (late: int)
    ensures late >= now && forall j :: 0 <= j < |accounts| ==> !Cooling(accounts[j], late)
  {
    if accounts == [] then now
    else
      var init, until := accounts[..|accounts| - 1], accounts[|accounts| - 1].until;
      var late := LatestUntil(init, now);
      assert forall j :: 0 <= j < |init| ==> init[j] == accounts[j];
      if until.Some? then Max(late, until.value) else late
  }

  /** No connection ever succeeds, and the first attempt takes until all cooldowns are over. */
  function LateWorld(accounts: seq<Acct>, now: int): World {
    World((attempt, key) => Transport("no route"), t => if t == 0 then now else LatestUntil(accounts, now))
  }

  ghost predicate Unreachable(w: World, late: int) {
    && (forall i: nat, key: string :: w.reply(i, key) == Transport("no route"))
    && (forall t: nat :: t > 0 ==> w.clock(t) == late)
  }

  /** From its second attempt on such a request finds every enabled account eligible, and stops short of position d. */
  lemma {:induction false} LateMisses(policy: Policy, w: World, accounts: seq<Acct>, cursor: nat, attempt: nat, attempts: nat, last: Option<Outcome>, late: int, i: nat, d: nat)
    requires i < d < |accounts| && attempt < attempts <= attempt + i + 1 && cursor + (attempts - attempt) <= CURSOR_RANGE
    requires EnabledAt(accounts, cursor, i) && NoneCooling(accounts, late) && attempt > 0 && Unreachable(w, late)
    ensures var sent := Attempts(policy, w, accounts, cursor, attempt, attempts, last);
            FailedOver(sent.end) && At(cursor, d, |accounts|) !in sent.calls
    decreases attempts - attempt
  {
    var n := |accounts|;
    var e := PickIsFirst(accounts, cursor, 0, late, i);
    var after := AfterAttempt(policy, w, accounts, At(cursor, e, n), attempt);
    RingIsInjective(cursor, n, e, d);
    UnfoldCall(policy, w, accounts, cursor, attempt, attempts, last);
    if attempt + 1 < attempts {
      assert At(cursor + 1, i - 1, n) == At(cursor, i, n) && At(cursor + 1, d - 1, n) == At(cursor, d, n);
      LateMisses(policy, w, after, cursor + 1, attempt + 1, attempts, Some(Transport("no route")), late, i - 1, d - 1);
    }
  }

  /** The first attempt goes to an account before position d that is eligible now, the others stop at position i. */
  lemma LateWorldMisses(policy: Policy, accounts: seq<Acct>, cursor: nat, now: int, first: nat, i: nat, d: nat)
    requires first < d && i < d < |accounts| && 0 < |EnabledSet(accounts)| <= i + 1 && cursor + |accounts| <= CURSOR_RANGE
    requires EligibleNow(accounts, cursor, first, now) && EnabledAt(accounts, cursor, i)
    ensures var sent := Send(policy, LateWorld(accounts, now), accounts, cursor);
            FailedOver(sent.end) && At(cursor, d, |accounts|) !in sent.calls
  {
    var n, k, w, late := |accounts|, |EnabledSet(accounts)|, LateWorld(accounts, now), LatestUntil(accounts, now);
    var e := PickIsFirst(accounts, cursor, 0, now, first);
    var after := AfterAttempt(policy, w, accounts, At(cursor, e, n), 0);
    RingIsInjective(cursor, n, e, d);
    UnfoldCall(policy, w, accounts, cursor, 0, k, None);
    if 1 < k {
      assert At(cursor + 1, i - 1, n) == At(cursor, i, n) && At(cursor + 1, d - 1, n) == At(cursor, d, n);
      LateMisses(policy, w, after, cursor + 1, 1, k, Some(Transport("no route")), late, i - 1, d - 1);
    }
  }

  // ---------------------------------------------------------------- the whole pool

  /** No disabled account among the first k - 1 ring positions from the cursor, k being the number enabled. */
  predicate HeadEnabled(accounts: seq<Acct>, cursor: nat)
    requires accounts != []
  {
    forall d: nat :: d < |EnabledSet(accounts)| - 1 ==> EnabledAt(accounts, cursor, d)
  }

  /** Then only one enabled account stands further on. */
  lemma HeadLeavesOne(accounts: seq<Acct>, cursor: nat, d: nat)
    requires d < |accounts| && HeadEnabled(accounts, cursor) && EnabledAt(accounts, cursor, d)
    ensures 0 < |EnabledSet(accounts)| && AllOff(accounts, cursor, |EnabledSet(accounts)| - 1, d)
  {
    var n, k := |accounts|, |EnabledSet(accounts)|;
    assert At(cursor, d, n) in EnabledSet(accounts);
    FewEnabled(accounts);
    if i: nat :| k - 1 <= i < d && EnabledAt(accounts, cursor, i) {
      var at := seq(k + 1, h requires 0 <= h < k + 1 => At(cursor, RingAt(h, k, i, d), n));
      forall h, g | 0 <= h < g < |at| ensures at[h] != at[g] {
        RingIsInjective(cursor, n, RingAt(h, k, i, d), RingAt(g, k, i, d));
      }
      DistinctCount(at);
      forall h | 0 <= h < |at| ensures at[h] in EnabledSet(accounts) {
        assert EnabledAt(accounts, cursor, RingAt(h, k, i, d));
      }
      Cardinality(Elements(at), EnabledSet(accounts));
    }
  }

  function RingAt(h: nat, k: nat, i: nat, d: nat): nat {
    if h + 1 < k then h else if h + 1 == k then i else d
  }

  /** With the head of the ring enabled, a request that ends with a failover error has tried every enabled account
      that was not cooling down when it started, whatever the replies, and whoever else was cooling. */
  lemma CleanHeadTriesEveryone(policy: Policy, w: World, accounts: seq<Acct>, cursor: nat, j: nat)
    requires j < |accounts| && HeadEnabled(accounts, cursor) && cursor + |accounts| <= CURSOR_RANGE
    requires Monotone(w.clock) && Eligible(accounts[j], w.clock(0))
    requires FailedOver(Send(policy, w, accounts, cursor).end)
    ensures j in Send(policy, w, accounts, cursor).calls
  {
    var k := |EnabledSet(accounts)|;
    RingIsCovered(cursor, |accounts|, j);
    var d: nat :| d < |accounts| && At(cursor, d, |accounts|) == j;
    HeadLeavesOne(accounts, cursor, d);
    FewEnabled(accounts);
    Covers(policy, w, accounts, cursor, 0, k, None, Min(k - 1, d), d);
  }

  /** When nothing is cooling, all enabled accounts are sure to be tried exactly when the head of the ring is enabled. */
  lemma HeadDecides(policy: Policy, accounts: seq<Acct>, cursor: nat, now: int)
    requires EnabledSet(accounts) != {} && NoneCooling(accounts, now) && cursor + |accounts| <= CURSOR_RANGE
    ensures (forall j: nat :: j in EnabledSet(accounts) ==> SureToBeTried(policy, accounts, cursor, now, j)) <==>
            HeadEnabled(accounts, cursor)
  {
    if HeadEnabled(accounts, cursor) {
      forall j: nat, w: World | j in EnabledSet(accounts) && Monotone(w.clock) && w.clock(0) == now && FailedOver(Send(policy, w, accounts, cursor).end)
        ensures j in Send(policy, w, accounts, cursor).calls
      {
        CleanHeadTriesEveryone(policy, w, accounts, cursor, j);
      }
    } else {
      var w := World((attempt, key) => Transport("no route"), t => now);
      DisabledAccountsAndCoverage(policy, w, accounts, cursor);
      RotationFailsOver(policy, w, accounts, cursor, 0, |EnabledSet(accounts)|, None);
      var j :| j in EnabledSet(accounts) && j !in Elements(Send(policy, w, accounts, cursor).calls);
      Missed(policy, w, accounts, cursor, now, j);
    }
  }

  lemma {:induction false} RotationFailsOver(policy: Policy, w: World, accounts: seq<Acct>, cursor: nat, attempt: nat, attempts: nat, last: Option<Outcome>)
    requires forall i: nat, key: string :: React(policy, w.reply(i, key)) == Rotate
    ensures FailedOver(Attempts(policy, w, accounts, cursor, attempt, attempts, last).end)
    decreases attempts - attempt
  {
    if attempt < attempts {
      var pick := Pick(accounts, cursor, w.clock(2 * attempt));
      if pick.Some? {
        var o := w.reply(attempt, accounts[pick.value].key);
        UnfoldCall(policy, w, accounts, cursor, attempt, attempts, last);
        RotationFailsOver(policy, w, AfterAttempt(policy, w, accounts, pick.value, attempt), NextFor(accounts, cursor), attempt + 1, attempts, Some(o));
      } else {
        UnfoldStop(policy, w, accounts, cursor, attempt, attempts, last);
      }
    }
  }
}
