/** Key changes: a request that began under an old key is still charged to the account it was for. */
module UsageAliases {
  import opened Base
  import opened Usage

  /** The tracker beside the history of the pools: every namespaced key each account ever had, oldest first. Accounts
      of all gateways are numbered in one sequence. */
  datatype World = World(t: Tracker, trails: map<nat, Trail>, live: set<nat>)

  type Trail = t: seq<string> | t != [] witness [""]

  datatype Change =
    | Add(acc: nat, key: string)
    | ReKey(acc: nat, key: string)
    | Delete(acc: nat)
    | Record(acc: nat, i: nat, e: Entry)

  function Last(trail: Trail): string {
    trail[|trail| - 1]
  }

  /** The aliases lead from each key of the account to its next one. */
  predicate Linked(aliases: map<string, string>, trail: Trail) {
    && Last(trail) !in aliases
    && (forall i :: 0 <= i < |trail| ==> trail[i] != "")
    && (forall i :: 0 <= i < |trail| - 1 ==> Link(aliases, trail, i))
  }

  predicate Link(aliases: map<string, string>, trail: seq<string>, i: int)
    requires 0 <= i < |trail| - 1
  {
    trail[i] in aliases && aliases[trail[i]] == trail[i + 1]
  }

  ghost predicate Inv(w: World) {
    && w.live <= w.trails.Keys
    && (forall a :: a in w.trails ==> Linked(w.t.aliases, w.trails[a]))
    && Distinct(w.trails)
  }

  ghost predicate Distinct(trails: map<nat, Trail>) {
    forall a, b, i, j | a in trails && b in trails && 0 <= i < |trails[a]| && 0 <= j < |trails[b]| ::
      trails[a][i] == trails[b][j] ==> a == b && i == j
  }

  /** A key that was never used. */
  predicate Fresh(w: World, key: string) {
    && key != "" && key !in w.t.aliases && key !in w.t.accounts
    && forall a :: a in w.trails ==> key !in w.trails[a]
  }

  /** What Add and SetKey demand: a key that no account has now. */
  predicate Vacant(w: World, key: string) {
    key != "" && forall a :: a in w.live && a in w.trails ==> Last(w.trails[a]) != key
  }

  /** Record(acc, i, e) is a request whose recorder was made when the account had its key number i. */
  predicate Possible(w: World, ch: Change) {
    match ch
    case Add(acc, key) => acc !in w.trails && Vacant(w, key)
    case ReKey(acc, key) => acc in w.live && acc in w.trails && Vacant(w, key)
    case Delete(acc) => acc in w.live && acc in w.trails
    case Record(acc, i, e) => acc in w.trails && i < |w.trails[acc]|
  }

  predicate TakesFreshKey(w: World, ch: Change) {
    ch.Add? || ch.ReKey? ==> Fresh(w, ch.key)
  }

  function Next(w: World, ch: Change): World
    requires Possible(w, ch)
  {
    match ch
    case Add(acc, key) => w.(trails := w.trails[acc := [key]], live := w.live + {acc})
    case ReKey(acc, key) =>
      w.(t := Rekeyed(w.t, Last(w.trails[acc]), key), trails := w.trails[acc := w.trails[acc] + [key]])
    case Delete(acc) =>
      w.(t := w.t.(accounts := w.t.accounts - {Last(w.trails[acc])}), live := w.live - {acc})
    case Record(acc, i, e) => w.(t := AccountCredited(w.t, w.trails[acc][i], e))
  }

  // ---------------------------------------------------------------- aliases lead to the present key

  lemma {:induction false} ResolveFollows(aliases: map<string, string>, trail: Trail, i: nat, hops: nat)
    requires Linked(aliases, trail) && i < |trail|
    ensures Resolve(aliases, trail[i], hops) == trail[Min(i + hops, |trail| - 1)]
    decreases hops
  {
    if hops > 0 && i < |trail| - 1 {
      assert Link(aliases, trail, i);
      ResolveFollows(aliases, trail, i + 1, hops - 1);
    }
  }

  /** A recorder finds its account's present key exactly when at most sixteen key changes came after it. */
  lemma RecorderFindsAccount(w: World, acc: nat, i: nat)
    requires Inv(w) && acc in w.trails && i < |w.trails[acc]|
    ensures Resolve(w.t.aliases, w.trails[acc][i], MAX_HOPS) == Last(w.trails[acc]) <==> |w.trails[acc]| - 1 - i <= 16
  {
    ResolveFollows(w.t.aliases, w.trails[acc], i, MAX_HOPS);
  }

  /** It never finds another account's. */
  lemma RecorderMissesOthers(w: World, acc: nat, i: nat, other: nat)
    requires Inv(w) && acc in w.trails && i < |w.trails[acc]| && other in w.trails && other != acc
    ensures Resolve(w.t.aliases, w.trails[acc][i], MAX_HOPS) != Last(w.trails[other])
  {
    ResolveFollows(w.t.aliases, w.trails[acc], i, MAX_HOPS);
  }

  lemma StepKeepsInv(w: World, ch: Change)
    requires Inv(w) && Possible(w, ch) && TakesFreshKey(w, ch)
    ensures Inv(Next(w, ch))
  {
    var n := Next(w, ch);
    if ch.ReKey? {
      forall a | a in n.trails ensures Linked(n.t.aliases, n.trails[a]) {
        ReKeyKeepsLinks(w, ch.acc, ch.key, a);
      }
    }
  }

  lemma ReKeyKeepsLinks(w: World, acc: nat, key: string, a: nat)
    requires Inv(w) && Possible(w, ReKey(acc, key)) && Fresh(w, key) && a in w.trails
    ensures Linked(Next(w, ReKey(acc, key)).t.aliases, Next(w, ReKey(acc, key)).trails[a])
  {
    var was, from := w.trails[a], Last(w.trails[acc]);
    var aliases := w.t.aliases[from := key];
    assert from in w.trails[acc];
    if a == acc {
      var now := was + [key];
      forall i | 0 <= i < |now| - 1 ensures Link(aliases, now, i) {
        if i < |was| - 1 {
          assert Link(w.t.aliases, was, i);
          assert was[i] != from;
        }
      }
    } else {
      forall i | 0 <= i < |was| - 1 ensures Link(aliases, was, i) {
        assert Link(w.t.aliases, was, i);
      }
      assert Last(was) != from;
    }
  }

  // ---------------------------------------------------------------- counters follow accounts

  ghost predicate Run(w: World, changes: seq<Change>)
    requires Inv(w)
    decreases |changes|
  {
    changes == [] || (Possible(w, changes[0]) && TakesFreshKey(w, changes[0]) && (StepKeepsInv(w, changes[0]); Run(Next(w, changes[0]), changes[1..])))
  }

  ghost function End(w: World, changes: seq<Change>): World
    requires Inv(w) && Run(w, changes)
    decreases |changes|
  {
    if changes == [] then w else StepKeepsInv(w, changes[0]); End(Next(w, changes[0]), changes[1..])
  }

  /** The account's requests added up, leaving out those more than sixteen key changes late. */
  ghost function Earned(w: World, changes: seq<Change>, acc: nat, base: Entry): Entry
    requires Inv(w) && Run(w, changes)
    decreases |changes|
  {
    if changes == [] then base
    else
      StepKeepsInv(w, changes[0]);
      Earned(Next(w, changes[0]), changes[1..], acc, if Counts(w, changes[0], acc) then Plus(base, changes[0].e) else base)
  }

  predicate Counts(w: World, ch: Change, acc: nat)
    requires Possible(w, ch)
  {
    ch.Record? && ch.acc == acc && |w.trails[acc]| - 1 - ch.i <= MAX_HOPS
  }

  /** The counter of the account's present key. */
  function Balance(w: World, acc: nat): Entry
    requires acc in w.trails
  {
    Get(w.t.accounts, Last(w.trails[acc]))
  }

  lemma StepBalances(w: World, ch: Change, acc: nat)
    requires Inv(w) && Possible(w, ch) && TakesFreshKey(w, ch) && acc in w.live && ch != Delete(acc)
    ensures var n := Next(w, ch);
            && acc in n.live && acc in n.trails
            && Balance(n, acc) == if Counts(w, ch, acc) then Plus(Balance(w, acc), ch.e) else Balance(w, acc)
  {
    match ch
    case Add(_, _) =>
    case ReKey(a, key) => ReKeyBalances(w, a, key, acc);
    case Delete(a) => LastsDiffer(w, a, acc);
    case Record(a, i, e) =>
      RecordReaches(w, a, i, acc);
      RecordBalances(w, a, i, e, acc);
  }

  lemma LastsDiffer(w: World, a: nat, b: nat)
    requires Inv(w) && a in w.trails && b in w.trails && a != b
    ensures Last(w.trails[a]) != Last(w.trails[b])
  {
  }

  lemma ReKeyBalances(w: World, a: nat, key: string, acc: nat)
    requires Inv(w) && Possible(w, ReKey(a, key)) && Fresh(w, key) && acc in w.live
    ensures Balance(Next(w, ReKey(a, key)), acc) == Balance(w, acc)
  {
  }

  lemma RecordBalances(w: World, a: nat, i: nat, e: Entry, acc: nat)
    requires Possible(w, Record(a, i, e)) && acc in w.trails && w.trails[a][i] != ""
    requires Resolve(w.t.aliases, w.trails[a][i], MAX_HOPS) == Last(w.trails[acc]) <==> a == acc && |w.trails[acc]| - 1 - i <= MAX_HOPS
    ensures var n := Next(w, Record(a, i, e));
            && n.trails == w.trails && n.live == w.live
            && Balance(n, acc) == if Counts(w, Record(a, i, e), acc) then Plus(Balance(w, acc), e) else Balance(w, acc)
  {
  }

  lemma RecordReaches(w: World, a: nat, i: nat, acc: nat)
    requires Inv(w) && a in w.trails && i < |w.trails[a]| && acc in w.trails
    ensures Resolve(w.t.aliases, w.trails[a][i], MAX_HOPS) == Last(w.trails[acc]) <==> a == acc && |w.trails[acc]| - 1 - i <= MAX_HOPS
  {
    if a == acc {
      RecorderFindsAccount(w, a, i);
    } else {
      RecorderMissesOthers(w, a, i, acc);
    }
  }

  /** Over any interleaving of requests, key changes, additions and deletions on all accounts and gateways, the
      counter of a surviving account grows by exactly its own requests, whichever of its keys they began under. */
  lemma {:induction false} CounterFollowsAccount(w: World, changes: seq<Change>, acc: nat)
    requires Inv(w) && Run(w, changes) && acc in w.live && Delete(acc) !in changes
    ensures var end := End(w, changes);
            && Inv(end) && acc in end.live
            && Balance(end, acc) == Earned(w, changes, acc, Balance(w, acc))
    decreases |changes|
  {
    if changes != [] {
      var ch, rest := changes[0], changes[1..];
      StepKeepsInv(w, ch);
      StepBalances(w, ch, acc);
      CounterFollowsAccount(Next(w, ch), rest, acc);
    }
  }
}
