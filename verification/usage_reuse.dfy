/** Keys that come back: exactly when a used key breaks the charging of requests to their account. */
module UsageReuse {
  import opened Base
  import opened Usage
  import opened UsageAliases

  // ---------------------------------------------------------------- one account

  /** The aliases these key changes leave behind. */
  function AliasesOf(t: Trail): map<string, string> {
    if |t| == 1 then map[] else AliasesOf(t[..|t| - 1])[t[|t| - 2] := t[|t| - 1]]
  }

  predicate KeyChanges(t: Trail) {
    && (forall i :: 0 <= i < |t| ==> t[i] != "")
    && (forall i :: 0 <= i < |t| - 1 ==> Differs(t, i))
  }

  predicate Differs(t: Trail, i: int)
    requires 0 <= i < |t| - 1
  {
    t[i] != t[i + 1]
  }

  /** Every recorder at most sixteen key changes old finds the present key. */
  predicate Finds(aliases: map<string, string>, t: Trail) {
    forall i :: 0 <= i < |t| && |t| - 1 - i <= MAX_HOPS ==> Resolve(aliases, t[i], MAX_HOPS) == Last(t)
  }

  /** Keys may come back: the requests of an account are all charged to its present key exactly when it never had
      that key before. */
  lemma ReuseIsExact(t: Trail)
    requires KeyChanges(t)
    ensures Finds(AliasesOf(t), t) <==> Last(t) !in t[..|t| - 1]
  {
    if Last(t) !in t[..|t| - 1] {
      forall i | 0 <= i < |t| && |t| - 1 - i <= MAX_HOPS ensures Resolve(AliasesOf(t), t[i], MAX_HOPS) == Last(t) {
        LeadsToLast(t, i, MAX_HOPS);
      }
    } else {
      var p :| 0 <= p < |t| - 1 && t[p] == Last(t);
      var j := LastExit(t, p);
      assert Differs(t, j);
      ReturnMisleads(AliasesOf(t), t);
    }
  }

  lemma {:induction false} Sources(t: Trail, key: string)
    ensures key in AliasesOf(t) <==> key in t[..|t| - 1]
  {
    if |t| > 1 {
      Sources(t[..|t| - 1], key);
      assert t[..|t| - 1] == t[..|t| - 2] + [t[|t| - 2]];
      assert t[..|t| - 1][..|t| - 2] == t[..|t| - 2];
    }
  }

  /** A key leads to the one that followed it when the account last left it. */
  lemma {:induction false} LastExit(t: Trail, i: nat) returns (j: nat)
    requires i < |t| - 1
    ensures i <= j < |t| - 1 && t[j] == t[i] && t[i] in AliasesOf(t) && AliasesOf(t)[t[i]] == t[j + 1]
  {
    if t[i] == t[|t| - 2] {
      j := |t| - 2;
    } else {
      j := LastExit(t[..|t| - 1], i);
    }
  }

  lemma {:induction false} LeadsToLast(t: Trail, i: nat, hops: nat)
    requires KeyChanges(t) && Last(t) !in t[..|t| - 1] && i < |t| && |t| - 1 - i <= hops
    ensures Resolve(AliasesOf(t), t[i], hops) == Last(t)
    decreases hops
  {
    if i == |t| - 1 {
      Sources(t, t[i]);
    } else {
      var j := LastExit(t, i);
      LeadsToLast(t, j + 1, hops - 1);
    }
  }

  lemma {:induction false} OneHopMore(aliases: map<string, string>, key: string, hops: nat)
    ensures Resolve(aliases, key, hops + 1) == Resolve(aliases, Resolve(aliases, key, hops), 1)
    decreases hops
  {
    if hops > 0 && key in aliases && aliases[key] != "" {
      OneHopMore(aliases, aliases[key], hops - 1);
    }
  }

  /** A present key that leads on is missed by the recorder made under it or by the one made just before. */
  lemma ReturnMisleads(aliases: map<string, string>, t: Trail)
    requires |t| >= 2 && Last(t) != ""
    requires t[|t| - 2] in aliases && aliases[t[|t| - 2]] == Last(t)
    requires Last(t) in aliases && aliases[Last(t)] != Last(t) && aliases[Last(t)] != ""
    ensures !Finds(aliases, t)
  {
    var last, before := t[|t| - 1], t[|t| - 2];
    if Finds(aliases, t) {
      assert Resolve(aliases, last, MAX_HOPS) == last;
      assert Resolve(aliases, before, MAX_HOPS) == Resolve(aliases, last, 15) == last;
      OneHopMore(aliases, last, 15);
    }
  }

  /** Without returning keys the aliases are the account's own chain. */
  lemma DistinctIsLinked(t: Trail)
    requires KeyChanges(t) && forall i, j :: 0 <= i < j < |t| ==> t[i] != t[j]
    ensures Linked(AliasesOf(t), t)
  {
    Sources(t, Last(t));
    forall i | 0 <= i < |t| - 1 ensures Link(AliasesOf(t), t, i) {
      var j := LastExit(t, i);
      assert j == i;
    }
  }

  /** Seventeen key changes late: a request that began under the first of eighteen keys is charged to the last but one. */
  lemma LateRequestIsMisled()
    ensures var t := seq(18, i requires 0 <= i < 18 => seq(i + 1, _ => 'k'));
            Resolve(AliasesOf(t), t[0], MAX_HOPS) == t[16] != Last(t)
  {
    var t: Trail := seq(18, i requires 0 <= i < 18 => seq(i + 1, _ => 'k'));
    assert forall i :: 0 <= i < 18 ==> |t[i]| == i + 1;
    DistinctIsLinked(t);
    ResolveFollows(AliasesOf(t), t, 0, MAX_HOPS);
  }

  /** There and back again misleads; one more change, to a new key, makes it right again. */
  lemma ReusedKeyMisleads(a: string, b: string, c: string)
    requires a != "" && b != "" && c != "" && a != b && b != c && a != c
    ensures !Finds(AliasesOf([a, b, a]), [a, b, a])
    ensures Finds(AliasesOf([a, b, a, c]), [a, b, a, c])
  {
    assert [a, b, a][..2][0] == a && [a, b, a, c][..3] == [a, b, a];
    ReuseIsExact([a, b, a]);
    ReuseIsExact([a, b, a, c]);
  }

  // ---------------------------------------------------------------- all accounts together

  /** No key leads back to itself. */
  ghost predicate Acyclic(aliases: map<string, string>) {
    && (forall key :: key in aliases ==> aliases[key] != "")
    && (forall key, hops: nat :: key in aliases && hops > 0 ==> Resolve(aliases, key, hops) != key)
  }

  ghost predicate Tidy(w: World) {
    && Acyclic(w.t.aliases) && w.live <= w.trails.Keys
    && (forall a :: a in w.live ==> Linked(w.t.aliases, w.trails[a]))
    && (forall a, b :: a in w.live && b in w.live && a != b ==> Last(w.trails[a]) != Last(w.trails[b]))
  }

  /** Every request of a live account that began at most sixteen key changes ago is charged to its present key. */
  ghost predicate Attributed(w: World) {
    forall a :: a in w.live && a in w.trails ==> Finds(w.t.aliases, w.trails[a])
  }

  /** The account takes on a key that some account of the same gateway, itself included, once changed away from. */
  predicate TakesSpentKey(w: World, ch: Change) {
    (ch.Add? || ch.ReKey?) && ch.key in w.t.aliases
  }

  lemma TidyAttributes(w: World)
    requires Tidy(w)
    ensures Attributed(w)
  {
    forall a, i | a in w.live && 0 <= i < |w.trails[a]| && |w.trails[a]| - 1 - i <= MAX_HOPS
      ensures Resolve(w.t.aliases, w.trails[a][i], MAX_HOPS) == Last(w.trails[a])
    {
      ResolveFollows(w.t.aliases, w.trails[a], i, MAX_HOPS);
    }
  }

  /** Before and after a key change a chain differs at most by its new end. */
  lemma {:induction false} ResolveExtends(aliases: map<string, string>, from: string, to: string, key: string, hops: nat)
    requires from !in aliases && to !in aliases && from != to && to != ""
    ensures Resolve(aliases[from := to], key, hops) in {Resolve(aliases, key, hops), to}
    decreases hops
  {
    if hops > 0 {
      if key == from {
        assert Resolve(aliases[from := to], to, hops - 1) == to;
      } else if key in aliases && aliases[key] != "" {
        ResolveExtends(aliases, from, to, aliases[key], hops - 1);
      }
    }
  }

  lemma StaysAcyclic(aliases: map<string, string>, from: string, to: string)
    requires Acyclic(aliases) && from !in aliases && to !in aliases && from != to && to != ""
    ensures Acyclic(aliases[from := to])
  {
    var longer := aliases[from := to];
    forall key, hops: nat | key in longer && hops > 0 ensures Resolve(longer, key, hops) != key {
      ResolveExtends(aliases, from, to, key, hops);
      if key == from {
        assert Resolve(longer, to, hops - 1) == to;
      }
    }
  }

  lemma TidyStep(w: World, ch: Change)
    requires Tidy(w) && Possible(w, ch) && !TakesSpentKey(w, ch)
    ensures Tidy(Next(w, ch))
  {
    if ch.ReKey? {
      var from := Last(w.trails[ch.acc]);
      StaysAcyclic(w.t.aliases, from, ch.key);
      forall a | a in w.live ensures Linked(Next(w, ch).t.aliases, Next(w, ch).trails[a]) {
        StaysLinked(w, ch.acc, ch.key, a);
      }
    }
  }

  lemma StaysLinked(w: World, acc: nat, key: string, a: nat)
    requires Tidy(w) && Possible(w, ReKey(acc, key)) && key !in w.t.aliases && a in w.live
    ensures Linked(Next(w, ReKey(acc, key)).t.aliases, Next(w, ReKey(acc, key)).trails[a])
  {
    var n := Next(w, ReKey(acc, key));
    var was, now := w.trails[a], n.trails[a];
    forall i | 0 <= i < |now| - 1 ensures Link(n.t.aliases, now, i) {
      if i < |was| - 1 {
        assert Link(w.t.aliases, was, i);
      }
    }
  }

  /** Taking on a spent key misleads a recorder of that very account at once. */
  lemma SpentKeyMisleads(w: World, ch: Change)
    requires Tidy(w) && Possible(w, ch) && TakesSpentKey(w, ch)
    ensures !Attributed(Next(w, ch))
  {
    var n := Next(w, ch);
    var t := n.trails[ch.acc];
    if ch.ReKey? {
      var aliases := w.t.aliases;
      assert Resolve(aliases, ch.key, 1) == aliases[ch.key];
      ReturnMisleads(n.t.aliases, t);
    } else {
      assert Resolve(n.t.aliases, t[0], MAX_HOPS) != t[0];
    }
    assert !Finds(n.t.aliases, t);
  }

  predicate Can(w: World, changes: seq<Change>)
    decreases |changes|
  {
    changes == [] || (Possible(w, changes[0]) && Can(Next(w, changes[0]), changes[1..]))
  }

  /** Requests are charged rightly in every state of the run. */
  ghost predicate AlwaysAttributed(w: World, changes: seq<Change>)
    requires Can(w, changes)
    decreases |changes|
  {
    Attributed(w) && (changes == [] || AlwaysAttributed(Next(w, changes[0]), changes[1..]))
  }

  predicate NeverSpent(w: World, changes: seq<Change>)
    requires Can(w, changes)
    decreases |changes|
  {
    changes == [] || (!TakesSpentKey(w, changes[0]) && NeverSpent(Next(w, changes[0]), changes[1..]))
  }

  /** Over any interleaving on all accounts and gateways, requests are charged to their accounts in every state
      exactly when no account ever takes on a key that was changed away from. */
  lemma {:induction false} AttributionIsExact(w: World, changes: seq<Change>)
    requires Tidy(w) && Can(w, changes)
    ensures AlwaysAttributed(w, changes) <==> NeverSpent(w, changes)
    decreases |changes|
  {
    TidyAttributes(w);
    if changes != [] {
      if TakesSpentKey(w, changes[0]) {
        SpentKeyMisleads(w, changes[0]);
      } else {
        TidyStep(w, changes[0]);
        AttributionIsExact(Next(w, changes[0]), changes[1..]);
      }
    }
  }

  /** As after start-up: no alias yet, and no key held twice. */
  lemma StartIsTidy(w: World)
    requires w.t.aliases == map[] && w.live <= w.trails.Keys
    requires forall a :: a in w.live ==> |w.trails[a]| == 1 && w.trails[a][0] != ""
    requires forall a, b :: a in w.live && b in w.live && a != b ==> Last(w.trails[a]) != Last(w.trails[b])
    ensures Tidy(w)
  {
  }
}
