/** accounts.go: upstream accounts, their cooldowns, and the round-robin pool. */
module Accounts {
  import opened Base
  import opened Rings

  const SECOND: int := 1_000_000_000
  const DEFAULT_COOLDOWN: int := 60 * SECOND
  const CURSOR_RANGE: nat := 0x1_0000_0000_0000_0000

  /** What one upstream attempt came to. retryAfter is the header as an integer, when it parses as one. */
  datatype Outcome =
    | Success
    | Canceled(message: string)
    | InvalidRequest(message: string)
    | Status(message: string, code: int, retryAfter: Option<int>)
    | Transport(message: string)

  /** One account as a value; None stands for Go's zero time. */
  datatype Acct = Acct(
    id: string, name: string, key: string, enabled: bool,
    errors: nat, lastError: string, lastErrorAt: Option<int>, lastUsedAt: Option<int>, until: Option<int>, authFailures: nat)

  predicate Cooling(a: Acct, now: int) {
    a.until.Some? && now < a.until.value
  }

  predicate Eligible(a: Acct, now: int) {
    a.enabled && !Cooling(a, now)
  }

  /** int64 arithmetic on nanoseconds. */
  function Wrap64(x: int): int {
    (x + 0x8000_0000_0000_0000) % 0x1_0000_0000_0000_0000 - 0x8000_0000_0000_0000
  }

  function CooldownOf(retryAfter: Option<int>): int {
    if retryAfter.Some? && retryAfter.value > 0 then Wrap64(retryAfter.value * SECOND) else DEFAULT_COOLDOWN
  }

  function Succeeded(a: Acct, now: int): Acct {
    a.(lastUsedAt := Some(now), lastError := "", lastErrorAt := None, authFailures := 0)
  }

  function MessageOf(o: Outcome): string {
    if o.Success? then "" else o.message
  }

  function FailedWith(a: Acct, o: Outcome, now: int): Acct {
    var b := a.(errors := a.errors + 1, lastError := MessageOf(o), lastErrorAt := Some(now));
    if o.Status? && o.code == 429 then b.(until := Some(now + CooldownOf(o.retryAfter)))
    else if o.Status? && (o.code == 401 || o.code == 403) then b.(authFailures := b.authFailures + 1)
    else b
  }

  class Account {
    const id: string
    const name: string
    const key: string
    const enabled: bool
    var errors: nat
    var lastError: string
    var lastErrorAt: Option<int>
    var lastUsedAt: Option<int>
    var rateLimitedUntil: Option<int>
    var authFailures: nat

    ghost function State(): Acct
      reads this
    {
      Acct(id, name, key, enabled, errors, lastError, lastErrorAt, lastUsedAt, rateLimitedUntil, authFailures)
    }

    constructor (id: string, name: string, key: string, enabled: bool)
      ensures State() == Acct(id, name, key, enabled, 0, "", None, None, None, 0)
    {
      this.id, this.name, this.key, this.enabled := id, name, key, enabled;
      errors, lastError, lastErrorAt, lastUsedAt, rateLimitedUntil, authFailures := 0, "", None, None, None, 0;
    }

    /** cloneAccount, with the fields an admin mutation may replace. */
    constructor Clone(a: Account, id: string, name: string, key: string, enabled: bool)
      ensures State() == a.State().(id := id, name := name, key := key, enabled := enabled)
    {
      this.id, this.name, this.key, this.enabled := id, name, key, enabled;
      errors, lastError, lastErrorAt, lastUsedAt := a.errors, a.lastError, a.lastErrorAt, a.lastUsedAt;
      rateLimitedUntil, authFailures := a.rateLimitedUntil, a.authFailures;
    }

    method RateLimited(now: int) returns (r: bool)
      ensures r == Cooling(State(), now)
    {
      r := rateLimitedUntil.Some? && now < rateLimitedUntil.value;
    }

    method RecordSuccess(now: int)
      modifies this
      ensures State() == Succeeded(old(State()), now)
    {
      lastUsedAt, lastError, lastErrorAt, authFailures := Some(now), "", None, 0;
    }

    method RecordFailure(o: Outcome, now: int)
      modifies this
      ensures State() == FailedWith(old(State()), o, now)
    {
      errors := errors + 1;
      lastError, lastErrorAt := MessageOf(o), Some(now);
      if o.Status? {
        if o.code == 429 {
          var cooldown := DEFAULT_COOLDOWN;
          if o.retryAfter.Some? && o.retryAfter.value > 0 {
            cooldown := Wrap64(o.retryAfter.value * SECOND);
          }
          rateLimitedUntil := Some(now + cooldown);
        } else if o.code == 401 || o.code == 403 {
          authFailures := authFailures + 1;
        }
      }
    }
  }

  // ---------------------------------------------------------------- rotation

  /** The uint64 counter wraps. */
  function NextCursor(cursor: nat): (c: nat)
    ensures c < CURSOR_RANGE
    ensures cursor + 1 < CURSOR_RANGE ==> c == cursor + 1
    ensures cursor + 1 == 0x1_0000_0000_0000_0000 ==> c == 0
  {
    (cursor + 1) % CURSOR_RANGE
  }

  predicate NoneEligible(accounts: seq<Acct>, now: int) {
    forall j :: 0 <= j < |accounts| ==> !Eligible(accounts[j], now)
  }

  /** The account Acquire hands out: the first eligible one on the ring, from i steps after the cursor. */
  function PickFrom(accounts: seq<Acct>, cursor: nat, i: nat, now: int): (pick: Option<nat>)
    ensures pick.Some? ==> pick.value < |accounts| && Eligible(accounts[pick.value], now)
    decreases |accounts| - i
  {
    if i >= |accounts| then None
    else if Eligible(accounts[At(cursor, i, |accounts|)], now) then Some(At(cursor, i, |accounts|))
    else PickFrom(accounts, cursor, i + 1, now)
  }

  function Pick(accounts: seq<Acct>, cursor: nat, now: int): (pick: Option<nat>)
    ensures pick.Some? ==> pick.value < |accounts| && Eligible(accounts[pick.value], now)
  {
    PickFrom(accounts, cursor, 0, now)
  }

  lemma {:induction false} PickFromMisses(accounts: seq<Acct>, cursor: nat, i: nat, now: int)
    requires PickFrom(accounts, cursor, i, now).None?
    ensures forall h: nat :: i <= h < |accounts| ==> !Eligible(accounts[At(cursor, h, |accounts|)], now)
    decreases |accounts| - i
  {
    if i < |accounts| {
      PickFromMisses(accounts, cursor, i + 1, now);
    }
  }

  /** Acquire finds nothing exactly when no account is eligible. */
  lemma PickMissesOnlyWhenNoneEligible(accounts: seq<Acct>, cursor: nat, now: int)
    ensures Pick(accounts, cursor, now).None? <==> NoneEligible(accounts, now)
  {
    if Pick(accounts, cursor, now).None? {
      PickFromMisses(accounts, cursor, 0, now);
      forall j | 0 <= j < |accounts| ensures !Eligible(accounts[j], now) {
        RingIsCovered(cursor, |accounts|, j);
      }
    }
  }

  /** AccountPool.EarliestRateLimitWait as a value: the least remaining cooldown of an enabled account. */
  function EarliestWait(accounts: seq<Acct>, now: int): (w: nat)
  {
    if accounts == [] then 0
    else
      var init, last := EarliestWait(accounts[..|accounts| - 1], now), accounts[|accounts| - 1];
      if last.enabled && Cooling(last, now) && (init == 0 || last.until.value - now < init) then last.until.value - now else init
  }

  /** When some account is enabled but none is eligible, the reported wait is exact: nothing is eligible at any
      earlier time, and something is at that one. */
  lemma WaitIsExact(accounts: seq<Acct>, cursor: nat, now: int, later: int)
    requires NoneEligible(accounts, now) && exists j :: 0 <= j < |accounts| && accounts[j].enabled
    requires now <= later
    ensures EarliestWait(accounts, now) > 0
    ensures later < now + EarliestWait(accounts, now) ==> Pick(accounts, cursor, later).None?
    ensures later == now + EarliestWait(accounts, now) ==> Pick(accounts, cursor, later).Some?
  {
    WaitIsLeast(accounts, now);
    var j :| 0 <= j < |accounts| && accounts[j].enabled;
    assert Cooling(accounts[j], now);
    PickMissesOnlyWhenNoneEligible(accounts, cursor, later);
    var w := EarliestWait(accounts, now);
    var m :| 0 <= m < |accounts| && accounts[m].enabled && Cooling(accounts[m], now) && accounts[m].until.value - now == w;
    assert later == now + w ==> Eligible(accounts[m], later);
  }

  lemma {:induction false} WaitIsLeast(accounts: seq<Acct>, now: int)
    ensures var w := EarliestWait(accounts, now);
            && (forall j :: 0 <= j < |accounts| && accounts[j].enabled && Cooling(accounts[j], now) ==>
                  0 < w <= accounts[j].until.value - now)
            && (w > 0 ==> exists j :: 0 <= j < |accounts| && accounts[j].enabled && Cooling(accounts[j], now)
                            && accounts[j].until.value - now == w)
  {
    if accounts != [] {
      var init := accounts[..|accounts| - 1];
      WaitIsLeast(init, now);
      forall j | 0 <= j < |init| ensures init[j] == accounts[j] {
      }
      var w := EarliestWait(accounts, now);
      if w > 0 && w == EarliestWait(init, now) {
        var j :| 0 <= j < |init| && init[j].enabled && Cooling(init[j], now) && init[j].until.value - now == w;
        assert accounts[j].enabled && Cooling(accounts[j], now) && accounts[j].until.value - now == w;
      }
    }
  }

  // ---------------------------------------------------------------- fairness

  predicate AllEligible(accounts: seq<Acct>, now: int) {
    forall j :: 0 <= j < |accounts| ==> Eligible(accounts[j], now)
  }

  /** The accounts handed out by consecutive Acquire calls, each on the pool as it is by then. */
  function PickRun(pools: seq<seq<Acct>>, cursor: nat, times: seq<int>): seq<Option<nat>>
    requires |pools| == |times|
    decreases |times|
  {
    if times == [] then []
    else [Pick(pools[0], cursor, times[0])] + PickRun(pools[1..], NextCursor(cursor), times[1..])
  }

  function Count(picks: seq<Option<nat>>, j: nat): nat {
    if picks == [] then 0 else (if picks[0] == Some(j) then 1 else 0) + Count(picks[1..], j)
  }

  lemma {:induction false} CountAppend(a: seq<Option<nat>>, b: seq<Option<nat>>, j: nat)
    ensures Count(a + b, j) == Count(a, j) + Count(b, j)
  {
    if a == [] {
      assert a + b == b;
    } else {
      assert (a + b)[1..] == a[1..] + b;
      CountAppend(a[1..], b, j);
    }
  }

  /** The ring positions of calls i to m - 1. */
  function Ring(cursor: nat, i: nat, m: nat, n: nat): (r: seq<Option<nat>>)
    requires n > 0 && i <= m
    ensures |r| == m - i && forall h :: 0 <= h < |r| ==> r[h] == Some(At(cursor, i + h, n))
  {
    seq(m - i, h requires 0 <= h < m - i => Some(At(cursor, i + h, n)))
  }

  /** n accounts at each call, all eligible then, whatever else changes about them. */
  predicate StayEligible(pools: seq<seq<Acct>>, times: seq<int>, n: nat)
    requires |pools| == |times|
  {
    forall t :: 0 <= t < |times| ==> |pools[t]| == n && AllEligible(pools[t], times[t])
  }

  lemma {:induction false} PickRunIsRing(pools: seq<seq<Acct>>, cursor: nat, times: seq<int>, n: nat)
    requires |pools| == |times| && n > 0 && cursor + |times| <= CURSOR_RANGE && StayEligible(pools, times, n)
    ensures PickRun(pools, cursor, times) == Ring(cursor, 0, |times|, n)
    decreases |times|
  {
    if times != [] {
      assert Pick(pools[0], cursor, times[0]) == Some(At(cursor, 0, n));
      if |times| > 1 {
        PickRunIsRing(pools[1..], cursor + 1, times[1..], n);
      }
      RingNext(cursor, |times|, n);
    }
  }

  lemma RingNext(cursor: nat, m: nat, n: nat)
    requires n > 0 && m > 0
    ensures Ring(cursor, 0, m, n) == [Some(At(cursor, 0, n))] + Ring(cursor + 1, 0, m - 1, n)
  {
  }

  /** In one full round from any start, exactly one position is j. */
  lemma RoundHitsOnce(cursor: nat, i: nat, n: nat, j: nat)
    requires j < n
    ensures Count(Ring(cursor, i, i + n, n), j) == 1
  {
    RingIsCovered(cursor + i, n, j);
    var at: nat :| at < n && At(cursor + i, at, n) == j;
    var r := Ring(cursor, i, i + n, n);
    assert forall h :: 0 <= h < n ==> r[h] == Some(At(cursor + i, h, n));
    forall h | 0 <= h < |r| && h != at ensures r[h] != Some(j) {
      RingIsInjective(cursor + i, n, h, at);
    }
    CountSingle(r, at, j);
  }

  lemma {:induction false} CountSingle(r: seq<Option<nat>>, at: nat, j: nat)
    requires at < |r| && r[at] == Some(j) && forall h :: 0 <= h < |r| && h != at ==> r[h] != Some(j)
    ensures Count(r, j) == 1
  {
    if at == 0 {
      CountNone(r[1..], j);
    } else {
      CountSingle(r[1..], at - 1, j);
    }
  }

  lemma {:induction false} CountNone(r: seq<Option<nat>>, j: nat)
    requires forall h :: 0 <= h < |r| ==> r[h] != Some(j)
    ensures Count(r, j) == 0
  {
    if r != [] {
      CountNone(r[1..], j);
    }
  }

  /** While all n accounts stay eligible, k rounds of n calls hand out each account exactly k times. */
  lemma {:induction false} RotationIsFair(pools: seq<seq<Acct>>, cursor: nat, times: seq<int>, n: nat, k: nat, j: nat)
    requires j < n && |pools| == |times| == k * n && cursor + |times| <= 0x1_0000_0000_0000_0000 && StayEligible(pools, times, n)
    ensures Count(PickRun(pools, cursor, times), j) == k
  {
    PickRunIsRing(pools, cursor, times, n);
    RoundsHitEach(cursor, k, n, j);
  }

  lemma {:induction false} RoundsHitEach(cursor: nat, k: nat, n: nat, j: nat)
    requires j < n
    ensures k * n >= 0 && Count(Ring(cursor, 0, k * n, n), j) == k
  {
    if k > 0 {
      RoundsHitEach(cursor, k - 1, n, j);
      assert k * n == (k - 1) * n + n;
      var i := (k - 1) * n;
      assert Ring(cursor, 0, k * n, n) == Ring(cursor, 0, i, n) + Ring(cursor, i, i + n, n);
      CountAppend(Ring(cursor, 0, i, n), Ring(cursor, i, i + n, n), j);
      RoundHitsOnce(cursor, i, n, j);
    }
  }

  function EnabledSet(accounts: seq<Acct>): set<int> {
    set i | 0 <= i < |accounts| && accounts[i].enabled
  }

  class AccountPool {
    var accounts: seq<Account>
    var cursor: nat

    ghost predicate Valid()
      reads this
    {
      && cursor < CURSOR_RANGE
      && forall i, j :: 0 <= i < j < |accounts| ==> accounts[i] != accounts[j]
    }

    ghost function View(): (v: seq<Acct>)
      reads this, accounts
      ensures |v| == |accounts|
      ensures forall i :: 0 <= i < |v| ==> v[i] == accounts[i].State()
    {
      seq(|accounts|, i requires 0 <= i < |accounts| reads this, accounts => accounts[i].State())
    }

    constructor ()
      ensures Valid() && accounts == [] && cursor == 0
    {
      accounts, cursor := [], 0;
    }

    method EnabledCount() returns (n: nat)
      requires Valid()
      ensures n == |EnabledSet(View())| <= |accounts|
    {
      n := 0;
      ghost var v, on: set<int> := View(), {};
      for i := 0 to |accounts|
        invariant on == set k | 0 <= k < i && v[k].enabled
        invariant n == |on| <= i
      {
        if accounts[i].enabled {
          n, on := n + 1, on + {i};
        }
      }
      assert on == EnabledSet(v);
    }

    method EligibleAt(j: nat, now: int) returns (ok: bool)
      requires j < |accounts|
      ensures ok == Eligible(View()[j], now)
    {
      var limited := accounts[j].RateLimited(now);
      ok := accounts[j].enabled && !limited;
    }

    method Acquire(now: int) returns (a: Account?)
      requires Valid()
      modifies this`cursor
      ensures Valid() && cursor == if accounts == [] then old(cursor) else NextCursor(old(cursor))
      ensures a == match Pick(View(), old(cursor), now) case None => null case Some(j) => accounts[j]
    {
      if |accounts| == 0 {
        return null;
      }
      var start := cursor % |accounts|;
      cursor := NextCursor(cursor);
      a := FirstEligible(start, now, old(cursor));
    }

    /** The search around the ring, from start. */
    method FirstEligible(start: nat, now: int, ghost from: nat) returns (a: Account?)
      requires accounts != [] && start == from % |accounts|
      ensures a == match Pick(View(), from, now) case None => null case Some(j) => accounts[j]
    {
      var n := |accounts|;
      for i := 0 to n
        invariant Pick(View(), from, now) == PickFrom(View(), from, i, now)
      {
        var j := (start + i) % n;
        StartWraps(from, i, n);
        var ok := EligibleAt(j, now);
        if ok {
          return accounts[j];
        }
      }
      return null;
    }

    method EarliestRateLimitWait(now: int) returns (w: nat)
      requires Valid()
      ensures w == EarliestWait(View(), now)
    {
      var earliest: Option<int> := None;
      for i := 0 to |accounts|
        invariant earliest.Some? ==> earliest.value > now
        invariant EarliestWait(View()[..i], now) == if earliest.None? then 0 else earliest.value - now
      {
        assert View()[..i + 1][..i] == View()[..i];
        if accounts[i].enabled {
          var until := accounts[i].rateLimitedUntil;
          if until.Some? && until.value > now && (earliest.None? || until.value < earliest.value) {
            earliest := until;
          }
        }
      }
      assert View()[..|accounts|] == View();
      w := if earliest.None? then 0 else earliest.value - now;
    }

    method Find(id: string) returns (i: nat)
      ensures i == IndexOf(accounts, id)
    {
      i := 0;
      while i < |accounts| && accounts[i].id != id
        invariant i <= |accounts|
        invariant IndexOf(accounts, id) == i + IndexOf(accounts[i..], id)
      {
        i := i + 1;
      }
    }

    /** Copy on write: the slot gets a fresh clone, and whoever still holds the old account keeps it as it was. */
    method SetEnabled(id: string, enabled: bool) returns (ok: bool)
      requires Valid()
      modifies this`accounts
      ensures Valid()
      ensures ok <==> IndexOf(old(accounts), id) < |old(accounts)|
      ensures !ok ==> accounts == old(accounts)
      ensures ok ==>
        var i := IndexOf(old(accounts), id);
        && |accounts| == |old(accounts)| && fresh(accounts[i]) && accounts == old(accounts)[i := accounts[i]]
        && accounts[i].State() == old(accounts)[i].State().(enabled := enabled)
      ensures DistinctIds(old(accounts)) ==> DistinctIds(accounts)
    {
      var i := Find(id);
      if i == |accounts| {
        return false;
      }
      var a := accounts[i];
      var updated := new Account.Clone(a, a.id, a.name, a.key, enabled);
      accounts := accounts[i := updated];
      return true;
    }

    /** Add appends an account under a new ID and refuses a blank key or a known ID. */
    method Add(accountId: string -> string, name: string, apiKey: string, enabled: bool) returns (a: Account?)
      requires Valid()
      modifies this`accounts
      ensures Valid()
      ensures a != null <==> TrimSpace(apiKey) != "" && IndexOf(old(accounts), accountId(TrimSpace(apiKey))) == |old(accounts)|
      ensures a == null ==> accounts == old(accounts)
      ensures a != null ==>
        && fresh(a) && accounts == old(accounts) + [a]
        && a.State() == Acct(accountId(TrimSpace(apiKey)), name, TrimSpace(apiKey), enabled, 0, "", None, None, None, 0)
      ensures DistinctIds(old(accounts)) ==> DistinctIds(accounts)
    {
      var key := TrimSpace(apiKey);
      if key == "" {
        return null;
      }
      var i := Find(accountId(key));
      if i < |accounts| {
        return null;
      }
      a := new Account(accountId(key), name, key, enabled);
      accounts := accounts + [a];
    }

    method Remove(id: string) returns (ok: bool)
      requires Valid()
      modifies this`accounts
      ensures Valid()
      ensures ok <==> IndexOf(old(accounts), id) < |old(accounts)|
      ensures accounts == if ok then old(accounts)[..IndexOf(old(accounts), id)] + old(accounts)[IndexOf(old(accounts), id) + 1..] else old(accounts)
      ensures DistinctIds(old(accounts)) ==> DistinctIds(accounts)
    {
      var i := Find(id);
      if i == |accounts| {
        return false;
      }
      accounts := accounts[..i] + accounts[i + 1..];
      return true;
    }

    /** SetKey: the account keeps its place and health under the ID of its new key, unless another holds that ID. */
    method SetKey(accountId: string -> string, id: string, newKey: string) returns (newId: Option<string>)
      requires Valid()
      modifies this`accounts
      ensures Valid()
      ensures newId.Some? <==>
        var i := IndexOf(old(accounts), id);
        && TrimSpace(newKey) != "" && i < |old(accounts)|
        && forall j :: 0 <= j < |old(accounts)| && j != i ==> old(accounts)[j].id != accountId(TrimSpace(newKey))
      ensures newId.None? ==> accounts == old(accounts)
      ensures newId.Some? ==>
        var i := IndexOf(old(accounts), id);
        && newId.value == accountId(TrimSpace(newKey))
        && |accounts| == |old(accounts)| && fresh(accounts[i]) && accounts == old(accounts)[i := accounts[i]]
        && accounts[i].State() == old(accounts)[i].State().(id := newId.value, key := TrimSpace(newKey))
      ensures DistinctIds(old(accounts)) ==> DistinctIds(accounts)
    {
      var key := TrimSpace(newKey);
      if key == "" {
        return None;
      }
      var i := Find(id);
      if i == |accounts| {
        return None;
      }
      for j := 0 to |accounts|
        invariant accounts == old(accounts)
        invariant forall h :: 0 <= h < j && h != i ==> accounts[h].id != accountId(key)
      {
        if j != i && accounts[j].id == accountId(key) {
          return None;
        }
      }
      var a := accounts[i];
      var updated := new Account.Clone(a, accountId(key), a.name, key, a.enabled);
      accounts := accounts[i := updated];
      return Some(accountId(key));
    }
  }

  predicate DistinctIds(accounts: seq<Account>) {
    forall i, j :: 0 <= i < j < |accounts| ==> accounts[i].id != accounts[j].id
  }

  /** The first account with this ID, or the length. */
  function IndexOf(accounts: seq<Account>, id: string): (i: nat)
    ensures i <= |accounts| && (i < |accounts| ==> accounts[i].id == id)
    ensures forall j :: 0 <= j < i ==> accounts[j].id != id
  {
    if accounts == [] || accounts[0].id == id then 0 else 1 + IndexOf(accounts[1..], id)
  }
}
