/** quota.go against admin.go: slow quota fetches racing account additions, deletions and key changes.
    One step is one region that runs without releasing a lock; anything may come between two steps. */
module Quota {
  import opened Base

  const QUOTA_REFRESH_WORKERS: nat := 4

  /** An account as a refresh captured it. IDs derive from keys, not injectively. */
  datatype Account = Account(id: string, key: string)

  /** Quota data together with the credential it was fetched with. */
  datatype Data = Data(key: string, payload: string)

  datatype Snapshot = Snapshot(data: Option<Data>, lastError: string)

  datatype Phase = Queued | Fetching | Fetched(result: Result<string, string>) | Leaving

  datatype Refresh = Refresh(account: Account, phase: Phase)

  /** Who holds gatewayLifecycleMu, and what is left to do before it is released. */
  datatype Lock = Free | Dropping(id: string) | Storing(task: nat) | Releasing

  datatype State = State(pool: seq<Account>, quotas: map<string, Snapshot>, lock: Lock, tasks: map<nat, Refresh>)

  datatype Step =
    | Add(key: string)                       // AccountPool.Add; the OAuth callback calls it without the lifecycle lock
    | Begin(task: nat, account: Account)     // a refresh of any account pointer ever handed out
    | Acquire(task: nat)                     // takes a semaphore slot
    | Cancel(task: nat)                      // its context ends while it queues
    | Answer(task: nat, result: Result<string, string>)
    | Check(task: nat)                       // locks and compares the credential with the current one
    | Store(task: nat)                       // SetQuota
    | Leave(task: nat)                       // returns its semaphore slot
    | Delete(id: string)                     // locks and removes the account
    | Rekey(id: string, key: string)         // locks and replaces the credential
    | Drop                                   // forgets the quota of the deleted or re-keyed ID
    | Release

  /** AccountPool.Get: the first account with this ID. */
  function Get(pool: seq<Account>, id: string): Option<Account> {
    if pool == [] then None else if pool[0].id == id then Some(pool[0]) else Get(pool[1..], id)
  }

  function IndexOf(pool: seq<Account>, id: string): (i: nat)
    ensures i <= |pool|
    ensures i < |pool| ==> pool[i].id == id && Get(pool, id) == Some(pool[i])
    ensures i == |pool| ==> Get(pool, id).None?
    ensures forall j :: 0 <= j < i ==> pool[j].id != id
  {
    if pool == [] || pool[0].id == id then 0 else 1 + IndexOf(pool[1..], id)
  }

  function CloneForQuotaError(previous: Option<Snapshot>, message: string): Snapshot {
    Snapshot(if previous.Some? then previous.value.data else None, message)
  }

  function Lookup(quotas: map<string, Snapshot>, id: string): Option<Snapshot> {
    if id in quotas then Some(quotas[id]) else None
  }

  function Published(quotas: map<string, Snapshot>, r: Refresh): Snapshot
    requires r.phase.Fetched?
  {
    match r.phase.result
    case Ok(payload) => Snapshot(Some(Data(r.account.key, payload)), "")
    case Err(message) => CloneForQuotaError(Lookup(quotas, r.account.id), message)
  }

  function Holders(tasks: map<nat, Refresh>): set<nat> {
    set t | t in tasks && !tasks[t].phase.Queued?
  }

  predicate CanRekey(pool: seq<Account>, i: nat, newId: string) {
    i < |pool| && forall j :: 0 <= j < |pool| && j != i ==> pool[j].id != newId
  }

  /** One atomic step, for a given ID derivation. A refused operation is no step at all. */
  ghost predicate Do(accountId: string -> string, s: State, step: Step, s': State) {
    match step
    case Add(key) =>
      key != "" && Get(s.pool, accountId(key)).None? && s' == s.(pool := s.pool + [Account(accountId(key), key)])
    case Begin(t, account) =>
      t !in s.tasks && s' == s.(tasks := s.tasks[t := Refresh(account, Queued)])
    case Acquire(t) =>
      && t in s.tasks && s.tasks[t].phase.Queued? && |Holders(s.tasks)| < QUOTA_REFRESH_WORKERS
      && s' == s.(tasks := s.tasks[t := s.tasks[t].(phase := Fetching)])
    case Cancel(t) =>
      t in s.tasks && s.tasks[t].phase.Queued? && s' == s.(tasks := s.tasks - {t})
    case Answer(t, result) =>
      t in s.tasks && s.tasks[t].phase.Fetching? && s' == s.(tasks := s.tasks[t := s.tasks[t].(phase := Fetched(result))])
    case Check(t) =>
      && s.lock.Free? && t in s.tasks && s.tasks[t].phase.Fetched?
      && var account := s.tasks[t].account;
         var current := Get(s.pool, account.id);
         if current.None? || current.value.key != account.key then
           s' == s.(tasks := s.tasks[t := s.tasks[t].(phase := Leaving)], lock := Releasing)
         else s' == s.(lock := Storing(t))
    case Store(t) =>
      && s.lock == Storing(t) && t in s.tasks && s.tasks[t].phase.Fetched?
      && var r := s.tasks[t];
         s' == s.(quotas := if r.account.id == "" then s.quotas else s.quotas[r.account.id := Published(s.quotas, r)],
                  tasks := s.tasks[t := r.(phase := Leaving)], lock := Releasing)
    case Leave(t) =>
      t in s.tasks && s.tasks[t].phase.Leaving? && s' == s.(tasks := s.tasks - {t})
    case Delete(id) =>
      var i := IndexOf(s.pool, id);
      s.lock.Free? && i < |s.pool| && s' == s.(pool := s.pool[..i] + s.pool[i + 1..], lock := Dropping(id))
    case Rekey(id, key) =>
      var i := IndexOf(s.pool, id);
      && s.lock.Free? && key != "" && CanRekey(s.pool, i, accountId(key))
      && s' == s.(pool := s.pool[i := Account(accountId(key), key)], lock := Dropping(id))
    case Drop =>
      s.lock.Dropping? && s' == s.(quotas := s.quotas - {s.lock.id}, lock := Releasing)
    case Release =>
      s.lock.Releasing? && s' == s.(lock := Free)
  }

  /** The cached quota under this ID is of an account now in the pool, fetched with its current key. */
  ghost predicate Fresh(s: State, id: string)
    requires id in s.quotas
  {
    var account := Get(s.pool, id);
    account.Some? && (s.quotas[id].data.Some? ==> s.quotas[id].data.value.key == account.value.key)
  }

  ghost predicate Consistent(s: State) {
    forall id :: id in s.quotas ==> Fresh(s, id)
  }

  ghost predicate Inv(s: State) {
    && (forall id :: id in s.quotas ==> Fresh(s, id) || s.lock == Dropping(id))
    && (s.lock.Storing? ==>
          && s.lock.task in s.tasks && s.tasks[s.lock.task].phase.Fetched?
          && var account := s.tasks[s.lock.task].account;
             var current := Get(s.pool, account.id);
             current.Some? && current.value.key == account.key)
    && |Holders(s.tasks)| <= QUOTA_REFRESH_WORKERS
  }

  lemma {:induction false} GetAppend(pool: seq<Account>, a: Account, id: string)
    ensures Get(pool + [a], id) == if Get(pool, id).Some? then Get(pool, id) else if a.id == id then Some(a) else None
  {
    if pool != [] {
      assert (pool + [a])[1..] == pool[1..] + [a];
      GetAppend(pool[1..], a, id);
    } else {
      assert (pool + [a])[1..] == [];
    }
  }

  lemma {:induction false} GetCut(pool: seq<Account>, i: nat, id: string)
    requires i < |pool| && pool[i].id != id
    ensures Get(pool[..i] + pool[i + 1..], id) == Get(pool, id)
  {
    if i == 0 {
      assert pool[..0] + pool[1..] == pool[1..];
    } else {
      assert (pool[..i] + pool[i + 1..])[1..] == pool[1..][..i - 1] + pool[1..][i..];
      GetCut(pool[1..], i - 1, id);
    }
  }

  lemma {:induction false} GetUpdate(pool: seq<Account>, i: nat, a: Account, id: string)
    requires i < |pool| && pool[i].id != id && a.id != id
    ensures Get(pool[i := a], id) == Get(pool, id)
  {
    if i == 0 {
      assert pool[0 := a][1..] == pool[1..];
    } else {
      assert pool[i := a][1..] == pool[1..][i - 1 := a];
      GetUpdate(pool[1..], i - 1, a, id);
    }
  }

  lemma HoldersUpdate(tasks: map<nat, Refresh>, t: nat, r: Refresh)
    ensures Holders(tasks[t := r]) == if r.phase.Queued? then Holders(tasks) - {t} else Holders(tasks) + {t}
  {
  }

  lemma HoldersRemove(tasks: map<nat, Refresh>, t: nat)
    ensures Holders(tasks - {t}) == Holders(tasks) - {t}
  {
  }

  lemma Shrinks(a: set<nat>, t: nat)
    ensures |a - {t}| <= |a|
  {
  }

  lemma SlotsStayBounded(accountId: string -> string, s: State, step: Step, s': State)
    requires |Holders(s.tasks)| <= QUOTA_REFRESH_WORKERS && Do(accountId, s, step, s')
    ensures |Holders(s'.tasks)| <= QUOTA_REFRESH_WORKERS
  {
    match step
    case Begin(t, account) =>
      HoldersUpdate(s.tasks, t, Refresh(account, Queued));
      Shrinks(Holders(s.tasks), t);
    case Acquire(t) => HoldersUpdate(s.tasks, t, s.tasks[t].(phase := Fetching));
    case Answer(t, result) =>
      HoldersUpdate(s.tasks, t, s.tasks[t].(phase := Fetched(result)));
      assert t in Holders(s.tasks);
      assert Holders(s.tasks) + {t} == Holders(s.tasks);
    case Cancel(t) =>
      HoldersRemove(s.tasks, t);
      Shrinks(Holders(s.tasks), t);
    case Check(t) =>
      HoldersUpdate(s.tasks, t, s.tasks[t].(phase := Leaving));
      assert Holders(s.tasks) + {t} == Holders(s.tasks);
    case Store(t) =>
      HoldersUpdate(s.tasks, t, s.tasks[t].(phase := Leaving));
      assert Holders(s.tasks) + {t} == Holders(s.tasks);
    case Leave(t) =>
      HoldersRemove(s.tasks, t);
      Shrinks(Holders(s.tasks), t);
    case _ =>
  }

  /** Every step keeps the invariant: a fetch that outlived its account or credential is never published. */
  lemma StepKeepsInv(accountId: string -> string, s: State, step: Step, s': State)
    requires Inv(s) && Do(accountId, s, step, s')
    ensures Inv(s')
  {
    SlotsStayBounded(accountId, s, step, s');
    match step
    case Add(key) =>
      var a := Account(accountId(key), key);
      forall id ensures Get(s'.pool, id) == if Get(s.pool, id).Some? then Get(s.pool, id) else if a.id == id then Some(a) else None {
        GetAppend(s.pool, a, id);
      }
    case Delete(id) =>
      forall other | other != id ensures Get(s'.pool, other) == Get(s.pool, other) {
        GetCut(s.pool, IndexOf(s.pool, id), other);
      }
      assert forall other :: other in s'.quotas && other != id ==> Fresh(s, other);
    case Rekey(id, key) =>
      var i := IndexOf(s.pool, id);
      var a := Account(accountId(key), key);
      forall other | other in s.quotas && other != id ensures Fresh(s', other) {
        assert Fresh(s, other);
        var at := IndexOf(s.pool, other);
        assert at != i && other != a.id;
        GetUpdate(s.pool, i, a, other);
      }
    case _ =>
  }

  /** A run: each state follows from the one before by some step. */
  ghost predicate IsRun(accountId: string -> string, run: seq<State>, steps: seq<Step>) {
    |run| == |steps| + 1 && forall i :: 0 <= i < |steps| ==> Do(accountId, run[i], steps[i], run[i + 1])
  }

  /** In every interleaving of any number of refreshes, additions, deletions and key changes that starts
      consistent and idle: whenever the lifecycle lock is free every cached quota belongs to an account now in
      the pool and was fetched with its current key, and at most four fetches are ever in flight. */
  lemma {:induction false} CachedQuotasStayFresh(accountId: string -> string, run: seq<State>, steps: seq<Step>, i: nat)
    requires IsRun(accountId, run, steps) && i < |run|
    requires Consistent(run[0]) && run[0].lock.Free? && Holders(run[0].tasks) == {}
    ensures Inv(run[i])
    ensures run[i].lock.Free? ==> Consistent(run[i])
    ensures |Holders(run[i].tasks)| <= 4
  {
    if i > 0 {
      CachedQuotasStayFresh(accountId, run, steps, i - 1);
      StepKeepsInv(accountId, run[i - 1], steps[i - 1], run[i]);
    }
  }

  // ---------------------------------------------------------------- where cached data comes from

  /** Step h of the run writes this ID's quota. */
  predicate StoresAt(run: seq<State>, steps: seq<Step>, h: int, id: string) {
    && 0 <= h < |steps| && h < |run| && steps[h].Store? && steps[h].task in run[h].tasks
    && run[h].tasks[steps[h].task].account.id == id
  }

  /** Step h of the run forgets it. */
  predicate DropsAt(run: seq<State>, steps: seq<Step>, h: int, id: string) {
    0 <= h < |steps| && h < |run| && steps[h].Drop? && run[h].lock == Dropping(id)
  }

  /** In every run a publication goes to an account that holds, at that very state, the key the fetch was made with. */
  lemma StoresAreCurrent(accountId: string -> string, run: seq<State>, steps: seq<Step>, h: nat, id: string)
    requires IsRun(accountId, run, steps) && StoresAt(run, steps, h, id)
    requires Consistent(run[0]) && run[0].lock.Free? && Holders(run[0].tasks) == {}
    ensures Get(run[h].pool, id).Some? && Get(run[h].pool, id).value.key == run[h].tasks[steps[h].task].account.key
  {
    CachedQuotasStayFresh(accountId, run, steps, h);
    assert Do(accountId, run[h], steps[h], run[h + 1]);
  }

  /** Between its publications and drops a cached quota does not change. */
  lemma {:induction false} OnlyStoresAndDropsChange(accountId: string -> string, run: seq<State>, steps: seq<Step>, i: nat, j: nat, id: string)
    requires IsRun(accountId, run, steps) && i <= j < |run|
    requires forall h :: i <= h < j ==> !StoresAt(run, steps, h, id) && !DropsAt(run, steps, h, id)
    ensures Lookup(run[j].quotas, id) == Lookup(run[i].quotas, id)
    decreases j
  {
    if i < j {
      OnlyStoresAndDropsChange(accountId, run, steps, i, j - 1, id);
      assert Do(accountId, run[j - 1], steps[j - 1], run[j]);
      assert !StoresAt(run, steps, j - 1, id) && !DropsAt(run, steps, j - 1, id);
    }
  }

  /** Step h is the upstream's answer to a fetch for this account. */
  predicate AnswersAt(run: seq<State>, steps: seq<Step>, h: int, account: Account, result: Result<string, string>) {
    && 0 <= h < |steps| && h < |run| && steps[h].Answer? && steps[h].result == result
    && steps[h].task in run[h].tasks && run[h].tasks[steps[h].task].account == account
  }

  lemma {:induction false} FetchedWasAnswered(accountId: string -> string, run: seq<State>, steps: seq<Step>, i: nat, t: nat) returns (h: nat)
    requires IsRun(accountId, run, steps) && i < |run| && run[0].tasks == map[]
    requires t in run[i].tasks && run[i].tasks[t].phase.Fetched?
    ensures h < i && AnswersAt(run, steps, h, run[i].tasks[t].account, run[i].tasks[t].phase.result)
  {
    assert i > 0;
    assert Do(accountId, run[i - 1], steps[i - 1], run[i]);
    if t in run[i - 1].tasks && run[i - 1].tasks[t] == run[i].tasks[t] {
      h := FetchedWasAnswered(accountId, run, steps, i - 1, t);
    } else {
      h := i - 1;
    }
  }

  /** In every run from an empty cache, all cached data is what the upstream answered, earlier in the run, to a fetch
      for the account with this ID and the very key the data is filed with. */
  lemma {:induction false} CachedDataWasFetched(accountId: string -> string, run: seq<State>, steps: seq<Step>, i: nat, id: string) returns (h: nat)
    requires IsRun(accountId, run, steps) && i < |run| && run[0].tasks == map[] && run[0].quotas == map[]
    requires id in run[i].quotas && run[i].quotas[id].data.Some?
    ensures var data := run[i].quotas[id].data.value;
            h < i && AnswersAt(run, steps, h, Account(id, data.key), Ok(data.payload))
  {
    assert i > 0;
    assert Do(accountId, run[i - 1], steps[i - 1], run[i]);
    if id != "" && StoresAt(run, steps, i - 1, id) && run[i - 1].tasks[steps[i - 1].task].phase.result.Ok? {
      h := FetchedWasAnswered(accountId, run, steps, i - 1, steps[i - 1].task);
    } else {
      h := CachedDataWasFetched(accountId, run, steps, i - 1, id);
    }
  }
}
