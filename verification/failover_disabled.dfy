/** What disabled accounts do to the failover loop: the search for the next account may land on one twice. */
module FailoverDisabled {
  import opened Base
  import opened Rings
  import opened Accounts
  import opened Failover
  import opened FailoverLaws

  /** Every attempt fails over, and no reply puts an account into cooldown. */
  ghost predicate FailsWarm(policy: Policy, w: World) {
    forall i: nat, key: string ::
      var o := w.reply(i, key);
      React(policy, o) == Rotate && !(o.Status? && o.code == 429)
  }

  predicate NoneCooling(accounts: seq<Acct>, now: int) {
    forall j :: 0 <= j < |accounts| ==> !Cooling(accounts[j], now)
  }

  lemma {:induction false} PickSeesFlags(a: seq<Acct>, b: seq<Acct>, cursor: nat, i: nat, now: int, later: int)
    requires |a| == |b| && NoneCooling(a, now) && NoneCooling(b, later)
    requires forall j :: 0 <= j < |a| ==> a[j].enabled == b[j].enabled
    ensures PickFrom(a, cursor, i, now) == PickFrom(b, cursor, i, later)
    decreases |a| - i
  {
    if i < |a| {
      PickSeesFlags(a, b, cursor, i + 1, now, later);
    }
  }

  /** Attempt i then goes to the first enabled account from i steps after the cursor. */
  lemma {:induction false} WarmCalls(policy: Policy, w: World, start: seq<Acct>, accounts: seq<Acct>, cursor: nat, attempt: nat, attempts: nat, last: Option<Outcome>)
    requires |start| == |accounts| && attempt <= attempts && Monotone(w.clock) && FailsWarm(policy, w)
    requires NoneCooling(start, w.clock(0)) && NoneCooling(accounts, w.clock(2 * attempt))
    requires forall j :: 0 <= j < |start| ==> start[j].enabled == accounts[j].enabled
    requires cursor + (attempts - attempt) <= CURSOR_RANGE && !NoneEligible(start, w.clock(0))
    ensures var calls := Attempts(policy, w, accounts, cursor, attempt, attempts, last).calls;
            && |calls| == attempts - attempt
            && Follows(start, cursor, calls, w.clock(0))
    decreases attempts - attempt
  {
    if attempt < attempts {
      var now := w.clock(2 * attempt);
      PickSeesFlags(start, accounts, cursor, 0, w.clock(0), now);
      PickMissesOnlyWhenNoneEligible(start, cursor, w.clock(0));
      var j := Pick(accounts, cursor, now).value;
      var o := w.reply(attempt, accounts[j].key);
      var after := AfterAttempt(policy, w, accounts, j, attempt);
      UnfoldCall(policy, w, accounts, cursor, attempt, attempts, last);
      StaysWarm(policy, w, accounts, j, attempt);
      WarmCalls(policy, w, start, after, cursor + 1, attempt + 1, attempts, Some(o));
      WarmNext(start, cursor, j, Attempts(policy, w, after, cursor + 1, attempt + 1, attempts, Some(o)).calls, w.clock(0));
    }
  }

  lemma StaysWarm(policy: Policy, w: World, accounts: seq<Acct>, j: nat, attempt: nat)
    requires j < |accounts| && Monotone(w.clock) && FailsWarm(policy, w) && NoneCooling(accounts, w.clock(2 * attempt))
    ensures var after := AfterAttempt(policy, w, accounts, j, attempt);
            && |after| == |accounts| && NoneCooling(after, w.clock(2 * (attempt + 1)))
            && forall h :: 0 <= h < |accounts| ==> after[h].enabled == accounts[h].enabled
  {
  }

  predicate Follows(start: seq<Acct>, cursor: nat, calls: seq<nat>, now: int) {
    forall i :: 0 <= i < |calls| ==> Pick(start, cursor + i, now) == Some(calls[i])
  }

  lemma WarmNext(start: seq<Acct>, cursor: nat, j: nat, rest: seq<nat>, now: int)
    requires Pick(start, cursor, now) == Some(j) && Follows(start, cursor + 1, rest, now)
    ensures Follows(start, cursor, [j] + rest, now)
  {
  }

  /** From a disabled account the search moves on to where the next call would start. */
  lemma {:induction false} DisabledIsSkipped(accounts: seq<Acct>, cursor: nat, i: nat, now: int)
    requires 0 < i <= |accounts| && !EnabledAt(accounts, cursor, 0)
    ensures PickFrom(accounts, cursor, i, now) == PickFrom(accounts, cursor + 1, i - 1, now)
    decreases |accounts| - i
  {
    var n := |accounts|;
    assert At(cursor, i, n) == At(cursor + 1, i - 1, n);
    if i < n {
      DisabledIsSkipped(accounts, cursor, i + 1, now);
    } else {
      ModUnique(cursor + n, n, cursor / n + 1, cursor % n);
      assert PickFrom(accounts, cursor + 1, n, now) == None;
    }
  }

  function Elements(calls: seq<nat>): set<int> {
    set i | 0 <= i < |calls| :: calls[i]
  }

  lemma {:induction false} AtMostOneEach(calls: seq<nat>)
    ensures |Elements(calls)| <= |calls|
  {
    if calls != [] {
      var init := calls[..|calls| - 1];
      AtMostOneEach(init);
      assert Elements(calls) == Elements(init) + {calls[|calls| - 1]};
    }
  }

  lemma RepeatLosesOne(calls: seq<nat>, i: nat)
    requires i + 1 < |calls| && calls[i] == calls[i + 1]
    ensures |Elements(calls)| < |calls|
  {
    var rest := calls[..i] + calls[i + 1..];
    AtMostOneEach(rest);
    assert Elements(calls) <= Elements(rest) by {
      forall h | 0 <= h < |calls| ensures calls[h] in Elements(rest) {
        assert calls[h] == rest[if h <= i then h else h - 1];
      }
    }
    Cardinality(Elements(calls), Elements(rest));
  }

  lemma Cardinality(a: set<int>, b: set<int>)
    requires a <= b
    ensures |a| <= |b|
  {
    assert b == a + (b - a);
  }

  lemma SameSize(a: set<int>, b: set<int>)
    requires a <= b && |a| >= |b|
    ensures a == b
  {
    Cardinality(b - a, b);
    assert b == a + (b - a);
  }

  lemma {:induction false} DistinctCount(calls: seq<nat>)
    requires forall i, h :: 0 <= i < h < |calls| ==> calls[i] != calls[h]
    ensures |Elements(calls)| == |calls|
  {
    if calls != [] {
      var init := calls[..|calls| - 1];
      DistinctCount(init);
      assert Elements(calls) == Elements(init) + {calls[|calls| - 1]};
    }
  }

  /** m ring positions cannot hold more than m enabled accounts. */
  lemma EnabledBeyond(accounts: seq<Acct>, cursor: nat, m: nat) returns (d: nat)
    requires m < |EnabledSet(accounts)| && accounts != []
    ensures m <= d < |accounts| && EnabledAt(accounts, cursor, d)
  {
    var n := |accounts|;
    var head := seq(m, i requires 0 <= i < m => At(cursor, i, n));
    AtMostOneEach(head);
    assert forall i: nat :: i < m ==> At(cursor, i, n) == head[i];
    if EnabledSet(accounts) <= Elements(head) {
      Cardinality(EnabledSet(accounts), Elements(head));
    }
    var j :| j in EnabledSet(accounts) && j !in Elements(head);
    RingIsCovered(cursor, n, j);
    d :| d < n && At(cursor, d, n) == j;
  }

  /** The run's own calls, when every attempt fails over and nothing cools. */
  lemma WarmSend(policy: Policy, w: World, accounts: seq<Acct>, cursor: nat)
    requires Monotone(w.clock) && FailsWarm(policy, w) && NoneCooling(accounts, w.clock(0))
    requires EnabledSet(accounts) != {} && cursor + |accounts| <= CURSOR_RANGE
    ensures var calls := Send(policy, w, accounts, cursor).calls;
            && |calls| == |EnabledSet(accounts)| <= |accounts|
            && Follows(accounts, cursor, calls, w.clock(0))
            && Elements(calls) <= EnabledSet(accounts)
  {
    var all := seq(|accounts|, i => i);
    AtMostOneEach(all);
    assert EnabledSet(accounts) <= Elements(all) by {
      forall j | j in EnabledSet(accounts) ensures j in Elements(all) {
        assert all[j] == j;
      }
    }
    Cardinality(EnabledSet(accounts), Elements(all));
    var j :| j in EnabledSet(accounts);
    assert Eligible(accounts[j], w.clock(0));
    WarmCalls(policy, w, accounts, accounts, cursor, 0, |EnabledSet(accounts)|, None);
  }

  /** When every attempt fails over and nothing cools, all the enabled accounts are tried exactly when no disabled
      account stands among the first k - 1 ring positions from the cursor, k being the number enabled. */
  lemma DisabledAccountsAndCoverage(policy: Policy, w: World, accounts: seq<Acct>, cursor: nat)
    requires Monotone(w.clock) && FailsWarm(policy, w) && NoneCooling(accounts, w.clock(0))
    requires EnabledSet(accounts) != {} && cursor + |accounts| <= CURSOR_RANGE
    ensures EnabledSet(accounts) <= Elements(Send(policy, w, accounts, cursor).calls) <==>
            forall d: nat :: d < |EnabledSet(accounts)| - 1 ==> EnabledAt(accounts, cursor, d)
  {
    WarmSend(policy, w, accounts, cursor);
    var on, calls := EnabledSet(accounts), Send(policy, w, accounts, cursor).calls;
    if d: nat :| d < |on| - 1 && !EnabledAt(accounts, cursor, d) {
      DisabledAccountRepeats(accounts, cursor, d, w.clock(0));
      RepeatLosesOne(calls, d);
      if on <= Elements(calls) {
        Cardinality(on, Elements(calls));
      }
    } else {
      CleanHeadIsDistinct(accounts, cursor, calls, w.clock(0));
      DistinctCount(calls);
      SameSize(Elements(calls), on);
    }
  }

  /** With [off, on, on] and the cursor at the disabled account, one enabled account is never tried. */
  lemma OneIsNeverTried(policy: Policy, w: World, a: Acct, b: Acct, c: Acct)
    requires Monotone(w.clock) && FailsWarm(policy, w) && NoneCooling([a, b, c], w.clock(0))
    requires !a.enabled && b.enabled && c.enabled
    ensures !(EnabledSet([a, b, c]) <= Elements(Send(policy, w, [a, b, c], 0).calls))
  {
    assert EnabledSet([a, b, c]) == {1, 2};
    assert !EnabledAt([a, b, c], 0, 0);
    DisabledAccountsAndCoverage(policy, w, [a, b, c], 0);
  }

  lemma DisabledAccountRepeats(accounts: seq<Acct>, cursor: nat, d: nat, now: int)
    requires accounts != [] && !EnabledAt(accounts, cursor, d)
    ensures Pick(accounts, cursor + d, now) == Pick(accounts, cursor + d + 1, now)
  {
    assert At(cursor + d, 0, |accounts|) == At(cursor, d, |accounts|);
    DisabledIsSkipped(accounts, cursor + d, 1, now);
  }

  lemma CleanHeadIsDistinct(accounts: seq<Acct>, cursor: nat, calls: seq<nat>, now: int)
    requires accounts != [] && |calls| == |EnabledSet(accounts)| <= |accounts| && NoneCooling(accounts, now)
    requires Follows(accounts, cursor, calls, now)
    requires forall d: nat :: d < |calls| - 1 ==> EnabledAt(accounts, cursor, d)
    ensures forall i, h :: 0 <= i < h < |calls| ==> calls[i] != calls[h]
  {
    var n := |accounts|;
    forall i, h | 0 <= i < h < |calls| ensures calls[i] != calls[h] {
      assert EnabledAt(accounts, cursor, i);
      assert At(cursor + i, 0, n) == At(cursor, i, n) == calls[i];
      var d := EnabledBeyond(accounts, cursor, h);
      assert At(cursor + h, d - h, n) == At(cursor, d, n);
      var e := PickIsFirst(accounts, cursor + h, 0, now, d - h);
      assert At(cursor + h, e, n) == At(cursor, h + e, n);
      RingIsInjective(cursor, n, i, h + e);
    }
  }
}
