/** usage.go: request and token counters, globally and per account and client key. */
module Usage {
  import opened Base

  const CMDCODE := "cmdcode"
  const OPENCODE := "opencode"
  const ZEN := "zen"
  const MAX_HOPS: nat := 16

  datatype Entry = Entry(requests: int, prompt: int, completion: int, cacheRead: int, cacheWrite: int)

  const ZERO := Entry(0, 0, 0, 0, 0)

  function Plus(a: Entry, b: Entry): Entry {
    Entry(a.requests + b.requests, a.prompt + b.prompt, a.completion + b.completion,
          a.cacheRead + b.cacheRead, a.cacheWrite + b.cacheWrite)
  }

  /** One recorded request. Negative cache counts are not added. */
  function Request(prompt: int, completion: int, cacheRead: int, cacheWrite: int): Entry {
    Entry(1, prompt, completion, Max(cacheRead, 0), Max(cacheWrite, 0))
  }

  // ---------------------------------------------------------------- namespaced keys

  /** strings.Cut at the first colon; None when there is none. */
  function Cut(s: string): Option<(string, string)> {
    if s == "" then None
    else if s[0] == ':' then Some(("", s[1..]))
    else match Cut(s[1..])
      case None => None
      case Some((before, after)) => Some(([s[0]] + before, after))
  }

  function NamespaceKey(gateway: string, id: string): string {
    gateway + ":" + id
  }

  /** usageNamespaceSplit: a bare ID reads as a cmdcode counter. */
  function NamespaceSplit(key: string): (string, string) {
    match Cut(key)
    case Some((gateway, id)) => if gateway != "" && id != "" then (gateway, id) else (CMDCODE, key)
    case None => (CMDCODE, key)
  }

  function Canonical(gateway: string): string {
    if gateway == "" then CMDCODE else if gateway == OPENCODE then ZEN else gateway
  }

  /** accountKeyFor */
  function KeyFor(gateway: string, id: string): string {
    if id == "" then ""
    else
      var (namespace, current) := NamespaceSplit(id);
      if current != id then (if namespace == OPENCODE then NamespaceKey(ZEN, current) else id)
      else NamespaceKey(Canonical(gateway), id)
  }

  // ---------------------------------------------------------------- the tracker as a value

  datatype Tracker = Tracker(
    total: Entry, accounts: map<string, Entry>, aliases: map<string, string>,
    clientKeys: map<string, Entry>, quotas: map<string, string>)

  function Get(counters: map<string, Entry>, key: string): Entry {
    if key in counters then counters[key] else ZERO
  }

  function Credited(counters: map<string, Entry>, key: string, e: Entry): map<string, Entry> {
    counters[key := Plus(Get(counters, key), e)]
  }

  /** The key a recorder's usage goes to after at most this many key changes. */
  function Resolve(aliases: map<string, string>, key: string, hops: nat): string
    decreases hops, |key|
  {
    if hops == 0 || key !in aliases || aliases[key] == "" then key else Resolve(aliases, aliases[key], hops - 1)
  }

  function Moved(counters: map<string, Entry>, oldKey: string, newKey: string): map<string, Entry> {
    if oldKey !in counters then counters
    else (counters - {oldKey})[newKey := Plus(Get(counters - {oldKey}, newKey), counters[oldKey])]
  }

  function Counted(t: Tracker, e: Entry): Tracker {
    t.(total := Plus(t.total, e))
  }

  function AccountCredited(t: Tracker, key: string, e: Entry): Tracker {
    if key == "" then t else t.(accounts := Credited(t.accounts, Resolve(t.aliases, key, MAX_HOPS), e))
  }

  function ClientCredited(t: Tracker, key: string, e: Entry): Tracker {
    if key == "" then t else t.(clientKeys := Credited(t.clientKeys, key, e))
  }

  function Rekeyed(t: Tracker, oldKey: string, newKey: string): Tracker {
    t.(aliases := t.aliases[oldKey := newKey], accounts := Moved(t.accounts, oldKey, newKey))
  }

  // ---------------------------------------------------------------- the tracker

  class UsageTracker {
    var total: Entry
    var accounts: map<string, Entry>
    var accountAliases: map<string, string>
    var clientKeys: map<string, Entry>
    var quotas: map<string, string>

    ghost function State(): Tracker
      reads this
    {
      Tracker(total, accounts, accountAliases, clientKeys, quotas)
    }

    constructor ()
      ensures State() == Tracker(ZERO, map[], map[], map[], map[])
    {
      total, accounts, accountAliases, clientKeys, quotas := ZERO, map[], map[], map[], map[];
    }

    method Record(e: Entry)
      modifies this`total
      ensures State() == Counted(old(State()), e)
    {
      total := Plus(total, e);
    }

    method ClientKeyAdd(id: string, e: Entry)
      modifies this`clientKeys
      ensures State() == ClientCredited(old(State()), id, e)
    {
      if id != "" {
        if id !in clientKeys {
          clientKeys := clientKeys[id := ZERO];
        }
        clientKeys := clientKeys[id := Plus(clientKeys[id], e)];
      }
    }

    method MoveAccountFor(gateway: string, oldID: string, newID: string)
      modifies this`accountAliases, this`accounts
      ensures State() ==
              if oldID == "" || newID == "" || KeyFor(gateway, oldID) == KeyFor(gateway, newID) then old(State())
              else Rekeyed(old(State()), KeyFor(gateway, oldID), KeyFor(gateway, newID))
    {
      if oldID == "" || newID == "" || oldID == newID {
        return;
      }
      var oldKey, newKey := KeyFor(gateway, oldID), KeyFor(gateway, newID);
      if oldKey == newKey {
        return;
      }
      accountAliases := accountAliases[oldKey := newKey];
      if oldKey !in accounts {
        return;
      }
      var moved := accounts[oldKey];
      accounts := accounts - {oldKey};
      if newKey !in accounts {
        accounts := accounts[newKey := moved];
        return;
      }
      accounts := accounts[newKey := Plus(accounts[newKey], moved)];
    }

    method DropAccountFor(gateway: string, id: string)
      modifies this`accounts, this`quotas
      ensures State() ==
              if id == "" then old(State())
              else old(State()).(
                   accounts := old(accounts) - {KeyFor(gateway, id)},
                   quotas := if gateway == CMDCODE then old(quotas) - {id} else old(quotas))
    {
      if id == "" {
        return;
      }
      accounts := accounts - {KeyFor(gateway, id)};
      if gateway == CMDCODE {
        quotas := quotas - {id};
      }
    }

    /** What save() writes: the total first, then the counters. */
    method Snapshot() returns (snap: Saved)
      ensures snap == SavedOf(State())
    {
      var t := total;
      snap := Saved(t, accounts, clientKeys, quotas);
    }

    /** loadUsage, given the decoded file; None when it cannot be read or decoded. */
    constructor Load(file: Option<Saved>)
      ensures State() == if file.None? then Tracker(ZERO, map[], map[], map[], map[]) else Loaded(file.value)
    {
      var snap := if file.None? then Saved(ZERO, map[], map[], map[]) else file.value;
      total, quotas, clientKeys, accountAliases, accounts := snap.total, snap.quotas, snap.clientKeys, map[], map[];
      new;
      LoadAccounts(snap.accounts);
    }

    /** Entries that meet under one key are merged. */
    method LoadEntry(key: string, entry: Entry)
      modifies this`accounts
      ensures accounts == old(accounts)[key := if key in old(accounts) then Plus(old(accounts)[key], entry) else entry]
    {
      if key in accounts {
        accounts := accounts[key := Plus(accounts[key], entry)];
      } else {
        accounts := accounts[key := entry];
      }
    }

    method LoadAccounts(saved: map<string, Entry>)
      requires accounts == map[]
      modifies this`accounts
      ensures accounts == Grouped(saved)
    {
      var todo := saved.Keys;
      ghost var done: set<string> := {};
      while todo != {}
        invariant done + todo == saved.Keys && done !! todo
        invariant accounts == Grouped(Restrict(saved, done))
        decreases |todo|
      {
        var id :| id in todo;
        GroupedAdds(saved, done, id);
        LoadEntry(KeyFor(CMDCODE, id), saved[id]);
        todo, done := todo - {id}, done + {id};
      }
      assert Restrict(saved, done) == saved;
    }
  }

  class MirrorRecorder {
    const tracker: UsageTracker
    const accountKey: string
    const clientKey: string

    /** RecorderWithGateway */
    constructor (tracker: UsageTracker, gateway: string, accountID: string, clientKey: string)
      ensures this.tracker == tracker && accountKey == KeyFor(gateway, accountID) && this.clientKey == clientKey
    {
      this.tracker, this.accountKey, this.clientKey := tracker, KeyFor(gateway, accountID), clientKey;
    }

    method Record(prompt: int, completion: int, cacheRead: int, cacheWrite: int)
      modifies tracker
      ensures var e := Request(prompt, completion, cacheRead, cacheWrite);
              tracker.State() == ClientCredited(AccountCredited(Counted(old(tracker.State()), e), accountKey, e), clientKey, e)
    {
      var e := Request(prompt, completion, cacheRead, cacheWrite);
      tracker.Record(e);
      CreditAccount(e);
      tracker.ClientKeyAdd(clientKey, e);
    }

    /** The step under the tracker's lock: find the account's present key, then add. */
    method CreditAccount(e: Entry)
      modifies tracker`accounts
      ensures tracker.State() == AccountCredited(old(tracker.State()), accountKey, e)
    {
      if accountKey == "" {
        return;
      }
      var id, i := accountKey, 0;
      while i < MAX_HOPS && id in tracker.accountAliases && tracker.accountAliases[id] != ""
        invariant i <= MAX_HOPS
        invariant Resolve(tracker.accountAliases, accountKey, MAX_HOPS) == Resolve(tracker.accountAliases, id, MAX_HOPS - i)
      {
        id, i := tracker.accountAliases[id], i + 1;
      }
      if id !in tracker.accounts {
        tracker.accounts := tracker.accounts[id := ZERO];
      }
      tracker.accounts := tracker.accounts[id := Plus(tracker.accounts[id], e)];
    }
  }

  // ---------------------------------------------------------------- sums and files

  datatype Saved = Saved(total: Entry, accounts: map<string, Entry>, clientKeys: map<string, Entry>, quotas: map<string, string>)

  function SavedOf(t: Tracker): Saved {
    Saved(t.total, t.accounts, t.clientKeys, t.quotas)
  }

  ghost function Sum(counters: map<string, Entry>): Entry
    decreases |counters|
  {
    if counters == map[] then ZERO
    else
      var k :| k in counters;
      Plus(counters[k], Sum(counters - {k}))
  }

  function Restrict(counters: map<string, Entry>, ids: set<string>): map<string, Entry> {
    map id | id in counters && id in ids :: counters[id]
  }

  /** The saved entries that belong to this namespaced key. */
  function Group(saved: map<string, Entry>, key: string): map<string, Entry> {
    map id | id in saved && KeyFor(CMDCODE, id) == key :: saved[id]
  }

  /** Per key, the sum of its saved entries, in no order. */
  ghost function Grouped(saved: map<string, Entry>): map<string, Entry> {
    map key | key in Keys(saved) :: Sum(Group(saved, key))
  }

  function Keys(saved: map<string, Entry>): set<string> {
    set id | id in saved :: KeyFor(CMDCODE, id)
  }

  ghost function Loaded(snap: Saved): Tracker {
    Tracker(snap.total, Grouped(snap.accounts), map[], snap.clientKeys, snap.quotas)
  }

  /** The order of summation does not matter. */
  lemma {:induction false} SumRemove(counters: map<string, Entry>, key: string)
    requires key in counters
    ensures Sum(counters) == Plus(counters[key], Sum(counters - {key}))
    decreases |counters|
  {
    var k :| k in counters && Sum(counters) == Plus(counters[k], Sum(counters - {k}));
    if k == key {
      assert Sum(counters) == Plus(counters[key], Sum(counters - {key}));
    } else {
      SumRemove(counters - {k}, key);
      SumRemove(counters - {key}, k);
      var rest := counters - {k} - {key};
      assert counters - {key} - {k} == rest;
      assert Sum(counters - {k}) == Plus(counters[key], Sum(rest));
      assert Sum(counters - {key}) == Plus(counters[k], Sum(rest));
      assert Sum(counters) == Plus(counters[k], Plus(counters[key], Sum(rest)));
      assert Sum(counters) == Plus(counters[key], Plus(counters[k], Sum(rest)));
    }
  }

  lemma SumAdd(counters: map<string, Entry>, key: string, e: Entry)
    requires key !in counters
    ensures Sum(counters[key := e]) == Plus(e, Sum(counters))
  {
    SumRemove(counters[key := e], key);
    assert counters[key := e] - {key} == counters;
  }

  lemma GroupedAdds(saved: map<string, Entry>, done: set<string>, id: string)
    requires id in saved && id !in done && done <= saved.Keys
    ensures var was, key := Grouped(Restrict(saved, done)), KeyFor(CMDCODE, id);
            Grouped(Restrict(saved, done + {id})) == was[key := if key in was then Plus(was[key], saved[id]) else saved[id]]
  {
    var was, now, key := Restrict(saved, done), Restrict(saved, done + {id}), KeyFor(CMDCODE, id);
    assert now == was[id := saved[id]];
    GroupedNext(was, id, saved[id]);
  }

  lemma GroupNext(was: map<string, Entry>, id: string, e: Entry, other: string)
    requires id !in was
    ensures Sum(Group(was[id := e], other)) ==
            if other == KeyFor(CMDCODE, id) then Plus(e, Sum(Group(was, other))) else Sum(Group(was, other))
  {
    if other == KeyFor(CMDCODE, id) {
      assert Group(was[id := e], other) == Group(was, other)[id := e];
      SumAdd(Group(was, other), id, e);
    } else {
      assert Group(was[id := e], other) == Group(was, other);
    }
  }

  lemma GroupedAt(saved: map<string, Entry>, key: string)
    ensures Get(Grouped(saved), key) == Sum(Group(saved, key))
    ensures key in Grouped(saved) <==> key in Keys(saved)
  {
  }

  lemma SameCounters(a: map<string, Entry>, b: map<string, Entry>)
    requires forall key :: key in a <==> key in b
    requires forall key :: key in a ==> Get(a, key) == Get(b, key)
    ensures a == b
  {
  }

  lemma GroupedNext(was: map<string, Entry>, id: string, e: Entry)
    requires id !in was
    ensures Grouped(was[id := e]) == Credited(Grouped(was), KeyFor(CMDCODE, id), e)
  {
    var key := KeyFor(CMDCODE, id);
    var a, b := Grouped(was[id := e]), Credited(Grouped(was), key, e);
    forall other ensures other in a <==> other in b {
      KeysNext(was, id, e);
      GroupedAt(was, other);
      GroupedAt(was[id := e], other);
    }
    forall other | other in a ensures Get(a, other) == Get(b, other) {
      GroupNext(was, id, e, other);
      GroupedAt(was, other);
      GroupedAt(was[id := e], other);
    }
    SameCounters(a, b);
  }

  lemma KeysNext(was: map<string, Entry>, id: string, e: Entry)
    ensures Keys(was[id := e]) == Keys(was) + {KeyFor(CMDCODE, id)}
  {
  }
}
