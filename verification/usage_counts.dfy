/** What the total and the client counters come to, field by field, and the keys counters are filed under. */
module UsageCounts {
  import opened Base
  import opened Usage
  import opened UsageLaws

  // ---------------------------------------------------------------- counts

  /** What happens to the tracker: a request under an account key and a client key, a key change or a deletion. */
  datatype Turn =
    | Call(account: string, client: string, prompt: int, completion: int, cacheRead: int, cacheWrite: int)
    | Move(oldKey: string, newKey: string)
    | Drop(key: string)

  function After(t: Tracker, turn: Turn): Tracker {
    match turn
    case Call(account, client, prompt, completion, cacheRead, cacheWrite) =>
      var e := Request(prompt, completion, cacheRead, cacheWrite);
      ClientCredited(AccountCredited(Counted(t, e), account, e), client, e)
    case Move(oldKey, newKey) => Rekeyed(t, oldKey, newKey)
    case Drop(key) => t.(accounts := t.accounts - {key})
  }

  function End(t: Tracker, turns: seq<Turn>): Tracker {
    if turns == [] then t else After(End(t, turns[..|turns| - 1]), turns[|turns| - 1])
  }

  /** One turn's share in a sum. */
  type Share = Turn -> int

  function Total(turns: seq<Turn>, share: Share): int {
    if turns == [] then 0 else Total(turns[..|turns| - 1], share) + share(turns[|turns| - 1])
  }

  /** The requests that match, and their tokens; a negative cache count is worth nothing. */
  function Requests(ok: Turn -> bool): Share {
    (turn: Turn) => if turn.Call? && ok(turn) then 1 else 0
  }

  function Prompts(ok: Turn -> bool): Share {
    (turn: Turn) => if turn.Call? && ok(turn) then turn.prompt else 0
  }

  function Completions(ok: Turn -> bool): Share {
    (turn: Turn) => if turn.Call? && ok(turn) then turn.completion else 0
  }

  function Reads(ok: Turn -> bool): Share {
    (turn: Turn) => if turn.Call? && ok(turn) && turn.cacheRead > 0 then turn.cacheRead else 0
  }

  function Writes(ok: Turn -> bool): Share {
    (turn: Turn) => if turn.Call? && ok(turn) && turn.cacheWrite > 0 then turn.cacheWrite else 0
  }

  /** From one reading of a counter to a later one, it grew by exactly the matching turns. */
  ghost predicate Grew(before: Entry, after: Entry, turns: seq<Turn>, ok: Turn -> bool) {
    && after.requests == before.requests + Total(turns, Requests(ok))
    && after.prompt == before.prompt + Total(turns, Prompts(ok))
    && after.completion == before.completion + Total(turns, Completions(ok))
    && after.cacheRead == before.cacheRead + Total(turns, Reads(ok))
    && after.cacheWrite == before.cacheWrite + Total(turns, Writes(ok))
  }

  lemma {:induction false} TotalCounts(t: Tracker, turns: seq<Turn>)
    ensures Grew(t.total, End(t, turns).total, turns, _ => true)
  {
    if turns != [] {
      TotalCounts(t, turns[..|turns| - 1]);
    }
  }

  function OfClient(client: string): Turn -> bool {
    (turn: Turn) => turn.Call? && turn.client == client
  }

  /** A client's counter grows by exactly its own requests, whatever happens to the accounts; there is none for a request
      without a client key. */
  lemma {:induction false} ClientCounts(t: Tracker, turns: seq<Turn>, client: string)
    ensures client != "" ==> Grew(Get(t.clientKeys, client), Get(End(t, turns).clientKeys, client), turns, OfClient(client))
    ensures client == "" ==> Get(End(t, turns).clientKeys, client) == Get(t.clientKeys, client)
  {
    if turns != [] {
      ClientCounts(t, turns[..|turns| - 1], client);
      ClientStep(End(t, turns[..|turns| - 1]), turns[|turns| - 1], client);
    }
  }

  lemma ClientStep(t: Tracker, turn: Turn, client: string)
    ensures Get(After(t, turn).clientKeys, client) ==
            if turn.Call? && turn.client == client != "" then Plus(Get(t.clientKeys, client), Request(turn.prompt, turn.completion, turn.cacheRead, turn.cacheWrite))
            else Get(t.clientKeys, client)
  {
  }

  // ---------------------------------------------------------------- keys

  /** The ID names a gateway itself. */
  ghost predicate NamesGateway(id: string, gateway: string, rest: string) {
    id == gateway + ":" + rest && ':' !in gateway && gateway != "" && rest != ""
  }

  /** The key of an account counter: an ID that names its gateway is its own key, but for the old opencode namespace; any
      other ID is filed under its gateway, blank meaning cmdcode and opencode meaning zen. */
  lemma KeyForMeaning(gateway: string, id: string)
    ensures id == "" ==> KeyFor(gateway, id) == ""
    ensures forall g, rest :: NamesGateway(id, g, rest) ==> KeyFor(gateway, id) == if g == "opencode" then "zen:" + rest else id
    ensures id != "" && (forall g, rest :: !NamesGateway(id, g, rest)) ==>
              KeyFor(gateway, id) == (if gateway == "" then "cmdcode" else if gateway == "opencode" then "zen" else gateway) + ":" + id
  {
    KeyForCases(gateway, id);
    CutSplits(id);
    forall g, rest | NamesGateway(id, g, rest) ensures Cut(id) == Some((g, rest)) {
      CutNamespaceKey(g, rest);
    }
    if Namespaced(id) {
      assert NamesGateway(id, Cut(id).value.0, Cut(id).value.1);
    }
    assert ZEN + ":" == "zen:";
  }
}
