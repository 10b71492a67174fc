/** What the quota cache holds at any moment of any run: the latest answer that was stored and not dropped since. */
module QuotaLaws {
  import opened Base
  import opened Quota

  // ---------------------------------------------------------------- what a store leaves behind

  /** The answer that step h stores under this ID, and the key it was fetched with. */
  ghost predicate StoresAnswer(run: seq<State>, steps: seq<Step>, h: nat, id: string, key: string, result: Result<string, string>) {
    StoresAt(run, steps, h, id) && run[h].tasks[steps[h].task] == Refresh(Account(id, key), Fetched(result))
  }

  ghost predicate Untouched(run: seq<State>, steps: seq<Step>, h: nat, i: nat, id: string) {
    forall g: nat :: h < g < i ==> !StoresAt(run, steps, g, id) && !DropsAt(run, steps, g, id)
  }

  /** Every store is of an answer. */
  lemma StoresHaveAnswers(accountId: string -> string, run: seq<State>, steps: seq<Step>, h: nat, id: string) returns (key: string, result: Result<string, string>)
    requires IsRun(accountId, run, steps) && StoresAt(run, steps, h, id)
    ensures StoresAnswer(run, steps, h, id, key, result)
  {
    assert Do(accountId, run[h], steps[h], run[h + 1]);
    var r := run[h].tasks[steps[h].task];
    key, result := r.account.key, r.phase.result;
  }

  function DataOf(s: State, id: string): Option<Data> {
    if id in s.quotas then s.quotas[id].data else None
  }

  /** From a store until the next store or drop of its ID, the cache holds what it stored: the payload filed with the
      key it was fetched with and no error, or the error beside the data from before. */
  lemma StoreStays(accountId: string -> string, run: seq<State>, steps: seq<Step>, h: nat, i: nat, id: string, key: string, result: Result<string, string>)
    requires IsRun(accountId, run, steps) && h < i < |run| && id != ""
    requires StoresAnswer(run, steps, h, id, key, result) && Untouched(run, steps, h, i, id)
    ensures id in run[i].quotas
    ensures match result
            case Ok(payload) => run[i].quotas[id] == Snapshot(Some(Data(key, payload)), "")
            case Err(m) => run[i].quotas[id] == Snapshot(DataOf(run[h], id), m)
  {
    assert Do(accountId, run[h], steps[h], run[h + 1]);
    OnlyStoresAndDropsChange(accountId, run, steps, h + 1, i, id);
    assert Lookup(run[h + 1].quotas, id) == Some(run[h + 1].quotas[id]);
  }

  // ---------------------------------------------------------------- the data there is

  ghost predicate StoresData(run: seq<State>, steps: seq<Step>, h: nat, id: string, data: Data) {
    StoresAnswer(run, steps, h, id, data.key, Ok(data.payload))
  }

  ghost predicate StoresSome(run: seq<State>, steps: seq<Step>, h: nat, id: string) {
    exists data :: StoresData(run, steps, h, id, data)
  }

  /** Step h is the last to store data under this ID before state i, and no drop came since. */
  ghost predicate LastData(run: seq<State>, steps: seq<Step>, h: nat, i: nat, id: string, data: Data) {
    && h < i && StoresData(run, steps, h, id, data)
    && forall g: nat :: h < g < i ==> !DropsAt(run, steps, g, id) && !StoresSome(run, steps, g, id)
  }

  /** What one step does to the data under an ID. */
  lemma DataStep(accountId: string -> string, run: seq<State>, steps: seq<Step>, h: nat, id: string)
    requires IsRun(accountId, run, steps) && h < |steps| && id != ""
    ensures forall d :: StoresData(run, steps, h, id, d) ==> DataOf(run[h + 1], id) == Some(d)
    ensures DropsAt(run, steps, h, id) ==> DataOf(run[h + 1], id) == None
    ensures !DropsAt(run, steps, h, id) && !StoresSome(run, steps, h, id) ==> DataOf(run[h + 1], id) == DataOf(run[h], id)
  {
    assert Do(accountId, run[h], steps[h], run[h + 1]);
    if StoresAt(run, steps, h, id) {
      var key, result := StoresHaveAnswers(accountId, run, steps, h, id);
      StoreStays(accountId, run, steps, h, h + 1, id, key, result);
      if result.Ok? {
        assert StoresData(run, steps, h, id, Data(key, result.value));
      }
    } else {
      if !DropsAt(run, steps, h, id) {
        OnlyStoresAndDropsChange(accountId, run, steps, h, h + 1, id);
      }
    }
  }

  /** The cache holds data for an ID exactly when some was stored since its last drop, and then the latest. */
  lemma {:induction false} DataIsLatest(accountId: string -> string, run: seq<State>, steps: seq<Step>, i: nat, id: string, data: Data)
    requires IsRun(accountId, run, steps) && i < |run| && run[0].quotas == map[] && id != ""
    ensures DataOf(run[i], id) == Some(data) <==> exists h: nat :: LastData(run, steps, h, i, id, data)
  {
    if i > 0 {
      var h := i - 1;
      DataIsLatest(accountId, run, steps, h, id, data);
      DataStep(accountId, run, steps, h, id);
      if StoresData(run, steps, h, id, data) {
        assert LastData(run, steps, h, i, id, data);
      } else if !DropsAt(run, steps, h, id) && !StoresSome(run, steps, h, id) {
        LastDataNext(run, steps, h, i, id, data);
      } else {
        forall g: nat ensures !LastData(run, steps, g, i, id, data) {
          assert g < h || g == h || g >= i;
        }
        if !DropsAt(run, steps, h, id) {
          var d :| StoresData(run, steps, h, id, d);
          assert DataOf(run[i], id) == Some(d);
        }
      }
    }
  }

  lemma LastDataNext(run: seq<State>, steps: seq<Step>, i: nat, j: nat, id: string, data: Data)
    requires !DropsAt(run, steps, i, id) && !StoresSome(run, steps, i, id) && j == i + 1
    ensures forall h: nat :: LastData(run, steps, h, j, id, data) <==> LastData(run, steps, h, i, id, data)
  {
    forall h: nat | LastData(run, steps, h, j, id, data) ensures LastData(run, steps, h, i, id, data) {
      assert h != i;
    }
  }

  /** Nothing is ever filed under a blank ID. */
  lemma {:induction false} BlankIsNeverCached(accountId: string -> string, run: seq<State>, steps: seq<Step>, i: nat)
    requires IsRun(accountId, run, steps) && i < |run| && run[0].quotas == map[]
    ensures "" !in run[i].quotas
  {
    if i > 0 {
      BlankIsNeverCached(accountId, run, steps, i - 1);
      assert Do(accountId, run[i - 1], steps[i - 1], run[i]);
    }
  }

  // ---------------------------------------------------------------- a refresh nobody disturbs

  /** The whole life of a refresh whose fetch is answered, its account still holding the key. */
  function RefreshSteps(t: nat, account: Account, result: Result<string, string>): seq<Step> {
    [Begin(t, account), Acquire(t), Answer(t, result), Check(t), Store(t), Release, Leave(t)]
  }

  /** The account with this ID, if any, holds this key now. */
  predicate Holds(pool: seq<Account>, account: Account) {
    exists i :: 0 <= i < |pool| && pool[i] == account && forall j :: 0 <= j < i ==> pool[j].id != account.id
  }

  lemma {:induction false} GetHolds(pool: seq<Account>, account: Account)
    ensures Get(pool, account.id) == Some(account) <==> Holds(pool, account)
  {
    var i := IndexOf(pool, account.id);
    if Holds(pool, account) {
      var h :| 0 <= h < |pool| && pool[h] == account && forall j :: 0 <= j < h ==> pool[j].id != account.id;
      assert i == h;
    }
  }

  lemma {:induction false} GetKeepsId(pool: seq<Account>, id: string)
    ensures Get(pool, id).Some? ==> Get(pool, id).value.id == id
  {
    if pool != [] {
      GetKeepsId(pool[1..], id);
    }
  }

  /** The states of such a refresh, one after each step. */
  function RefreshRun(s: State, t: nat, account: Account, payload: string): seq<State> {
    var done := Done(s, account, payload);
    [s, With(s, t, Refresh(account, Queued)), With(s, t, Refresh(account, Fetching)), With(s, t, Refresh(account, Fetched(Ok(payload)))),
     With(s, t, Refresh(account, Fetched(Ok(payload)))).(lock := Storing(t)),
     With(done, t, Refresh(account, Leaving)).(lock := Releasing), With(done, t, Refresh(account, Leaving)), done]
  }

  function With(s: State, t: nat, r: Refresh): State {
    s.(tasks := s.tasks[t := r])
  }

  function Done(s: State, account: Account, payload: string): State {
    s.(quotas := s.quotas[account.id := Snapshot(Some(Data(account.key, payload)), "")])
  }

  lemma WithTwice(s: State, t: nat, r: Refresh, r': Refresh)
    ensures With(With(s, t, r), t, r') == With(s, t, r')
  {
    assert s.tasks[t := r][t := r'] == s.tasks[t := r'];
  }

  lemma FetchSteps(accountId: string -> string, s: State, t: nat, account: Account, result: Result<string, string>)
    requires t !in s.tasks && |Holders(s.tasks)| < 4
    ensures var queued, fetching := With(s, t, Refresh(account, Queued)), With(s, t, Refresh(account, Fetching));
            && Do(accountId, s, Begin(t, account), queued) && Do(accountId, queued, Acquire(t), fetching)
            && Do(accountId, fetching, Answer(t, result), With(s, t, Refresh(account, Fetched(result))))
  {
    HoldersUpdate(s.tasks, t, Refresh(account, Queued));
    assert Holders(s.tasks) - {t} == Holders(s.tasks);
    WithTwice(s, t, Refresh(account, Queued), Refresh(account, Fetching));
    WithTwice(s, t, Refresh(account, Fetching), Refresh(account, Fetched(result)));
  }

  lemma StoreSteps(accountId: string -> string, s: State, t: nat, account: Account, payload: string)
    requires s.lock.Free? && account.id != "" && Holds(s.pool, account)
    ensures var answered, done := With(s, t, Refresh(account, Fetched(Ok(payload)))), With(Done(s, account, payload), t, Refresh(account, Leaving));
            && Do(accountId, answered, Check(t), answered.(lock := Storing(t)))
            && Do(accountId, answered.(lock := Storing(t)), Store(t), done.(lock := Releasing))
            && Do(accountId, done.(lock := Releasing), Release, done)
  {
    GetHolds(s.pool, account);
    WithTwice(s, t, Refresh(account, Fetched(Ok(payload))), Refresh(account, Leaving));
  }

  lemma LeaveStep(accountId: string -> string, s: State, t: nat, account: Account)
    requires t !in s.tasks
    ensures Do(accountId, With(s, t, Refresh(account, Leaving)), Leave(t), s)
  {
    assert s.tasks[t := Refresh(account, Leaving)] - {t} == s.tasks;
  }

  /** Whatever else is going on, a refresh that finds a slot and the lifecycle lock free runs to its end and leaves its
      answer in the cache when its account still holds the key it was fetched with; nothing else changes. */
  lemma RefreshIsCached(accountId: string -> string, s: State, t: nat, account: Account, payload: string)
    requires s.lock.Free? && t !in s.tasks && |Holders(s.tasks)| < 4 && account.id != "" && Holds(s.pool, account)
    ensures var run := RefreshRun(s, t, account, payload);
            && IsRun(accountId, run, RefreshSteps(t, account, Ok(payload))) && run[0] == s
            && run[7] == s.(quotas := s.quotas[account.id := Snapshot(Some(Data(account.key, payload)), "")])
  {
    FetchSteps(accountId, s, t, account, Ok(payload));
    StoreSteps(accountId, s, t, account, payload);
    LeaveStep(accountId, Done(s, account, payload), t, account);
  }

  /** When it does not hold it any more, the check gives up and the cache keeps what it had. */
  lemma StaleRefreshIsDiscarded(accountId: string -> string, s: State, t: nat, s': State)
    requires t in s.tasks && s.tasks[t].phase.Fetched? && s.lock.Free? && Do(accountId, s, Check(t), s')
    ensures s'.lock == Storing(t) <==> Holds(s.pool, s.tasks[t].account)
    ensures s'.lock != Storing(t) ==> s'.lock == Releasing && s'.tasks[t].phase.Leaving?
    ensures s'.quotas == s.quotas && s'.pool == s.pool
  {
    var account := s.tasks[t].account;
    GetHolds(s.pool, account);
    GetKeepsId(s.pool, account.id);
  }

  // ---------------------------------------------------------------- what the other steps do to the pool

  predicate UniqueIds(pool: seq<Account>) {
    forall i, j :: 0 <= i < j < |pool| ==> pool[i].id != pool[j].id
  }

  /** The account under each ID after a step, given that IDs are unique before. */
  function PoolAfter(accountId: string -> string, pool: seq<Account>, step: Step, id: string): Option<Account> {
    match step
    case Add(key) => if id == accountId(key) then Some(Account(id, key)) else Get(pool, id)
    case Delete(gone) => if id == gone then None else Get(pool, id)
    case Rekey(old_, key) => if id == accountId(key) then Some(Account(id, key)) else if id == old_ then None else Get(pool, id)
    case _ => Get(pool, id)
  }

  lemma CutUnique(pool: seq<Account>, i: nat)
    requires UniqueIds(pool) && i < |pool|
    ensures var rest := pool[..i] + pool[i + 1..];
            UniqueIds(rest) && Get(rest, pool[i].id) == None
  {
    var rest := pool[..i] + pool[i + 1..];
    assert forall j :: 0 <= j < |rest| ==> rest[j] == pool[if j < i then j else j + 1];
    assert IndexOf(rest, pool[i].id) == |rest|;
  }

  lemma UpdateUnique(pool: seq<Account>, i: nat, a: Account)
    requires UniqueIds(pool) && CanRekey(pool, i, a.id)
    ensures UniqueIds(pool[i := a]) && Get(pool[i := a], a.id) == Some(a)
    ensures a.id != pool[i].id ==> Get(pool[i := a], pool[i].id) == None
  {
    var next := pool[i := a];
    assert next[i] == a && IndexOf(next, a.id) == i;
    assert a.id != pool[i].id ==> IndexOf(next, pool[i].id) == |next|;
  }

  lemma PoolStep(accountId: string -> string, s: State, step: Step, s': State, id: string)
    requires UniqueIds(s.pool) && Do(accountId, s, step, s')
    ensures UniqueIds(s'.pool) && Get(s'.pool, id) == PoolAfter(accountId, s.pool, step, id)
  {
    match step
    case Add(key) =>
      GetAppend(s.pool, Account(accountId(key), key), id);
      assert IndexOf(s.pool, accountId(key)) == |s.pool|;
    case Delete(gone) =>
      var i := IndexOf(s.pool, gone);
      CutUnique(s.pool, i);
      if id != gone {
        GetCut(s.pool, i, id);
      }
    case Rekey(from, key) =>
      var i, a := IndexOf(s.pool, from), Account(accountId(key), key);
      UpdateUnique(s.pool, i, a);
      if id != a.id && id != from {
        GetUpdate(s.pool, i, a, id);
      }
    case _ =>
  }

  /** A deleted or re-keyed ID has no quota once it is dropped; every other one keeps its own. */
  lemma DropForgets(accountId: string -> string, s: State, s': State, id: string)
    requires Do(accountId, s, Drop, s')
    ensures s.lock.Dropping? && Lookup(s'.quotas, id) == if s.lock == Dropping(id) then None else Lookup(s.quotas, id)
  {
  }

  lemma ChangesDrop(accountId: string -> string, s: State, step: Step, s': State)
    requires Do(accountId, s, step, s')
    ensures step.Delete? || step.Rekey? ==> s.lock.Free? && s'.lock == Dropping(step.id) && s'.quotas == s.quotas
    ensures s'.lock.Dropping? && s'.lock != s.lock ==> step.Delete? || step.Rekey?
  {
  }

  // ---------------------------------------------------------------- which steps can be taken

  /** A fetch starts only with fewer than four under way; a change of the pool waits for the lock and names an account
      there is, under a key nobody else's ID derives from; an addition asks for no lock. */
  ghost predicate Accepts(accountId: string -> string, s: State, step: Step) {
    match step
    case Add(key) => key != "" && forall i :: 0 <= i < |s.pool| ==> s.pool[i].id != accountId(key)
    case Begin(t, _) => t !in s.tasks
    case Acquire(t) => t in s.tasks && s.tasks[t].phase == Queued && |set h | h in s.tasks && s.tasks[h].phase != Queued| < 4
    case Cancel(t) => t in s.tasks && s.tasks[t].phase == Queued
    case Answer(t, _) => t in s.tasks && s.tasks[t].phase == Fetching
    case Check(t) => s.lock == Free && t in s.tasks && s.tasks[t].phase.Fetched?
    case Store(t) => s.lock == Storing(t) && t in s.tasks && s.tasks[t].phase.Fetched?
    case Leave(t) => t in s.tasks && s.tasks[t].phase == Leaving
    case Delete(id) => s.lock == Free && Known(s.pool, id)
    case Rekey(id, key) => s.lock == Free && key != "" && exists i :: FirstWith(s.pool, i, id) && NobodyElse(s.pool, i, accountId(key))
    case Drop => s.lock.Dropping?
    case Release => s.lock == Releasing
  }

  predicate Known(pool: seq<Account>, id: string) {
    exists i :: 0 <= i < |pool| && pool[i].id == id
  }

  predicate FirstWith(pool: seq<Account>, i: int, id: string) {
    0 <= i < |pool| && pool[i].id == id && forall j :: 0 <= j < i ==> pool[j].id != id
  }

  predicate NobodyElse(pool: seq<Account>, i: int, id: string) {
    forall j :: 0 <= j < |pool| && j != i ==> pool[j].id != id
  }

  lemma FirstIsIndex(pool: seq<Account>, i: int, id: string)
    ensures FirstWith(pool, i, id) <==> i == IndexOf(pool, id) && i < |pool|
  {
  }

  lemma OnlyAccepted(accountId: string -> string, s: State, step: Step, s': State)
    requires Do(accountId, s, step, s')
    ensures Accepts(accountId, s, step)
  {
    match step
    case Add(key) => assert IndexOf(s.pool, accountId(key)) == |s.pool|;
    case Acquire(t) => assert Holders(s.tasks) == set h | h in s.tasks && s.tasks[h].phase != Queued;
    case Rekey(id, key) => FirstIsIndex(s.pool, IndexOf(s.pool, id), id);
    case _ =>
  }

  lemma AcceptedCanHappen(accountId: string -> string, s: State, step: Step) returns (s': State)
    requires Accepts(accountId, s, step)
    ensures Do(accountId, s, step, s')
  {
    match step
    case Add(key) =>
      assert IndexOf(s.pool, accountId(key)) == |s.pool|;
      s' := s.(pool := s.pool + [Account(accountId(key), key)]);
    case Begin(t, account) => s' := s.(tasks := s.tasks[t := Refresh(account, Queued)]);
    case Acquire(t) =>
      assert Holders(s.tasks) == set h | h in s.tasks && s.tasks[h].phase != Queued;
      s' := s.(tasks := s.tasks[t := s.tasks[t].(phase := Fetching)]);
    case Cancel(t) => s' := s.(tasks := s.tasks - {t});
    case Answer(t, result) => s' := s.(tasks := s.tasks[t := s.tasks[t].(phase := Fetched(result))]);
    case Check(t) =>
      var current := Get(s.pool, s.tasks[t].account.id);
      if current.None? || current.value.key != s.tasks[t].account.key {
        s' := s.(tasks := s.tasks[t := s.tasks[t].(phase := Leaving)], lock := Releasing);
      } else {
        s' := s.(lock := Storing(t));
      }
    case Store(t) =>
      var r := s.tasks[t];
      s' := s.(quotas := if r.account.id == "" then s.quotas else s.quotas[r.account.id := Published(s.quotas, r)],
               tasks := s.tasks[t := r.(phase := Leaving)], lock := Releasing);
    case Leave(t) => s' := s.(tasks := s.tasks - {t});
    case Delete(id) =>
      var i := IndexOf(s.pool, id);
      s' := s.(pool := s.pool[..i] + s.pool[i + 1..], lock := Dropping(id));
    case Rekey(id, key) =>
      var i :| FirstWith(s.pool, i, id) && NobodyElse(s.pool, i, accountId(key));
      FirstIsIndex(s.pool, i, id);
      s' := s.(pool := s.pool[i := Account(accountId(key), key)], lock := Dropping(id));
    case Drop => s' := s.(quotas := s.quotas - {s.lock.id}, lock := Releasing);
    case Release => s' := s.(lock := Free);
  }

  /** These and no other steps can be taken. */
  lemma StepsAreAccepted(accountId: string -> string, s: State, step: Step)
    ensures Accepts(accountId, s, step) <==> exists s' :: Do(accountId, s, step, s')
  {
    if Accepts(accountId, s, step) {
      var s' := AcceptedCanHappen(accountId, s, step);
    } else {
      forall s' | Do(accountId, s, step, s') ensures false {
        OnlyAccepted(accountId, s, step, s');
      }
    }
  }
}
