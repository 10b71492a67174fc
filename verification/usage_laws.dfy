/** What the usage counters guarantee: one namespace per gateway, nothing lost by moves, merges or a restart. */
module UsageLaws {
  import opened Base
  import opened Usage

  // ---------------------------------------------------------------- keys

  lemma {:induction false} CutNamespaceKey(gateway: string, id: string)
    requires ':' !in gateway
    ensures Cut(NamespaceKey(gateway, id)) == Some((gateway, id))
  {
    var key := NamespaceKey(gateway, id);
    if gateway == "" {
      assert key[1..] == id;
    } else {
      assert key[1..] == NamespaceKey(gateway[1..], id) && key[0] == gateway[0] != ':';
      CutNamespaceKey(gateway[1..], id);
      assert gateway == [gateway[0]] + gateway[1..];
    }
  }

  lemma {:induction false} CutSplits(s: string)
    ensures match Cut(s)
            case None => ':' !in s
            case Some((before, after)) => ':' !in before && s == NamespaceKey(before, after)
  {
    if s != "" && s[0] != ':' {
      CutSplits(s[1..]);
      assert s == [s[0]] + s[1..];
    }
  }

  /** A key with text on both sides of its first colon is namespaced already. */
  predicate Namespaced(key: string) {
    Cut(key).Some? && Cut(key).value.0 != "" && Cut(key).value.1 != ""
  }

  lemma SplitOf(key: string)
    ensures NamespaceSplit(key).1 != key <==> Namespaced(key)
  {
    CutSplits(key);
  }

  /** KeyFor only ever changes a bare ID or a key of the old opencode namespace. */
  lemma KeyForCases(gateway: string, id: string)
    ensures KeyFor(gateway, id) ==
            if id == "" then ""
            else if !Namespaced(id) then NamespaceKey(Canonical(gateway), id)
            else if Cut(id).value.0 == OPENCODE then NamespaceKey(ZEN, Cut(id).value.1)
            else id
  {
    SplitOf(id);
  }

  /** A key in its final form: every gateway reads it as itself. */
  predicate Settled(key: string) {
    key == "" || (Namespaced(key) && Cut(key).value.0 != OPENCODE)
  }

  lemma SettledIsFixed(gateway: string, key: string)
    ensures Settled(key) ==> KeyFor(gateway, key) == key
  {
    KeyForCases(gateway, key);
  }

  lemma {:induction false} FirstColon(gateway: string, id: string)
    requires Cut(gateway).Some?
    ensures Cut(NamespaceKey(gateway, id)) == Some((Cut(gateway).value.0, NamespaceKey(Cut(gateway).value.1, id)))
  {
    var key := NamespaceKey(gateway, id);
    assert key[1..] == NamespaceKey(gateway[1..], id) && key[0] == gateway[0];
    if gateway[0] != ':' {
      FirstColon(gateway[1..], id);
    }
  }

  /** No colon, or text before the first one that is neither blank nor the old opencode namespace. */
  predicate PlainGateway(gateway: string) {
    Cut(gateway).Some? ==> Cut(gateway).value.0 != "" && Cut(gateway).value.0 != OPENCODE
  }

  lemma KeyForSettles(gateway: string, id: string)
    requires PlainGateway(gateway)
    ensures Settled(KeyFor(gateway, id))
  {
    KeyForCases(gateway, id);
    if id != "" && !Namespaced(id) {
      CutCanonical(Canonical(gateway), id);
    } else if id != "" && Cut(id).value.0 == OPENCODE {
      CutNamespaceKey(ZEN, Cut(id).value.1);
    }
  }

  lemma CutCanonical(c: string, id: string)
    ensures Cut(NamespaceKey(c, id)) ==
            match Cut(c) case Some((before, after)) => Some((before, NamespaceKey(after, id))) case None => Some((c, id))
  {
    CutSplits(c);
    if Cut(c).Some? {
      FirstColon(c, id);
    } else {
      CutNamespaceKey(c, id);
    }
  }

  /** Namespacing a key again, for any gateway, changes nothing, exactly when the first gateway's name is plain.
      The known gateways have no colon at all. */
  lemma KeyForIsIdempotent(gateway: string)
    ensures PlainGateway(gateway) <==> forall id, other :: KeyFor(other, KeyFor(gateway, id)) == KeyFor(gateway, id)
  {
    if PlainGateway(gateway) {
      forall id, other ensures KeyFor(other, KeyFor(gateway, id)) == KeyFor(gateway, id) {
        KeyForSettles(gateway, id);
        SettledIsFixed(other, KeyFor(gateway, id));
      }
    } else {
      var key := NamespaceKey(gateway, "x");
      FirstColon(gateway, "x");
      KeyForCases(gateway, "x");
      assert Cut("x"[1..]).None?;
      KeyForCases("", key);
      if Cut(gateway).value.0 == OPENCODE {
        CutSplits(gateway);
        assert key[0] == 'o' && KeyFor("", key)[0] == 'z';
      } else {
        assert |KeyFor("", key)| > |key|;
      }
      assert KeyFor("", KeyFor(gateway, "x")) != KeyFor(gateway, "x");
    }
  }

  /** Two accounts share a counter only with the same ID in the same gateway. */
  lemma KeysSeparate(g1: string, id1: string, g2: string, id2: string)
    requires ':' !in g1 && ':' !in g2 && id1 != "" && id2 != "" && !Namespaced(id1) && !Namespaced(id2)
    ensures KeyFor(g1, id1) == KeyFor(g2, id2) <==> Canonical(g1) == Canonical(g2) && id1 == id2
  {
    KeyForCases(g1, id1);
    KeyForCases(g2, id2);
    CutNamespaceKey(Canonical(g1), id1);
    CutNamespaceKey(Canonical(g2), id2);
  }

  // ---------------------------------------------------------------- conservation

  lemma CreditAdds(counters: map<string, Entry>, key: string, e: Entry)
    ensures Sum(Credited(counters, key, e)) == Plus(Sum(counters), e)
  {
    var was, rest := Get(counters, key), counters - {key};
    DropRemoves(counters, key);
    PutAgain(counters, key, Plus(was, e));
    SumAdd(rest, key, Plus(was, e));
    PlusSwaps(was, e, Sum(rest));
  }

  lemma PutAgain(counters: map<string, Entry>, key: string, e: Entry)
    ensures counters[key := e] == (counters - {key})[key := e]
  {
  }

  lemma PlusSwaps(a: Entry, b: Entry, c: Entry)
    ensures Plus(Plus(a, b), c) == Plus(Plus(a, c), b)
  {
  }

  lemma DropRemoves(counters: map<string, Entry>, key: string)
    ensures Sum(counters) == Plus(Get(counters, key), Sum(counters - {key}))
  {
    if key in counters {
      SumRemove(counters, key);
    } else {
      assert counters - {key} == counters;
    }
  }

  /** A key change moves or merges counters: every sum stays. */
  lemma MoveConserves(counters: map<string, Entry>, oldKey: string, newKey: string)
    ensures Sum(Moved(counters, oldKey, newKey)) == Sum(counters)
  {
    if oldKey in counters {
      DropRemoves(counters, oldKey);
      var rest := counters - {oldKey};
      assert Moved(counters, oldKey, newKey) == Credited(rest, newKey, counters[oldKey]);
      CreditAdds(rest, newKey, counters[oldKey]);
    }
  }

  // ---------------------------------------------------------------- files

  lemma {:induction false} GroupingConserves(saved: map<string, Entry>)
    ensures Sum(Grouped(saved)) == Sum(saved)
    decreases |saved|
  {
    if saved == map[] {
      assert Grouped(saved) == map[];
    } else {
      var id :| id in saved;
      var rest := saved - {id};
      GroupingConserves(rest);
      assert saved == rest[id := saved[id]];
      GroupedNext(rest, id, saved[id]);
      CreditAdds(Grouped(rest), KeyFor(CMDCODE, id), saved[id]);
      SumRemove(saved, id);
    }
  }

  /** Loading keeps the totals and the sum over accounts, and leaves only keys in their final form. */
  lemma LoadConserves(snap: Saved)
    ensures Loaded(snap).total == snap.total && Sum(Loaded(snap).accounts) == Sum(snap.accounts)
    ensures SettledKeys(Loaded(snap))
  {
    GroupingConserves(snap.accounts);
    forall id | id in snap.accounts ensures Settled(KeyFor(CMDCODE, id)) {
      assert Cut(CMDCODE).None?;
      KeyForSettles(CMDCODE, id);
    }
  }

  predicate SettledKeys(t: Tracker) {
    && (forall key :: key in t.accounts ==> Settled(key))
    && (forall key :: key in t.aliases ==> Settled(t.aliases[key]))
  }

  /** Saving and loading again brings back the same counters. */
  lemma LoadAfterSave(t: Tracker)
    requires SettledKeys(t)
    ensures Loaded(SavedOf(t)) == t.(aliases := map[])
  {
    forall id | id in t.accounts ensures KeyFor(CMDCODE, id) == id {
      SettledIsFixed(CMDCODE, id);
    }
    FixedKeysRegroup(t.accounts);
  }

  lemma FixedKeysRegroup(saved: map<string, Entry>)
    requires forall id :: id in saved ==> KeyFor(CMDCODE, id) == id
    ensures Grouped(saved) == saved
  {
    forall key ensures key in Grouped(saved) <==> key in saved {
      GroupedAt(saved, key);
      assert key in saved ==> KeyFor(CMDCODE, key) == key;
    }
    forall key | key in Grouped(saved) ensures Get(Grouped(saved), key) == Get(saved, key) {
      GroupedAt(saved, key);
      OneInGroup(saved, key);
    }
    SameCounters(Grouped(saved), saved);
  }

  lemma OneInGroup(saved: map<string, Entry>, key: string)
    requires key in saved && forall id :: id in saved ==> KeyFor(CMDCODE, id) == id
    ensures Sum(Group(saved, key)) == saved[key]
  {
    assert Group(saved, key) == map[key := saved[key]];
    SumOne(key, saved[key]);
  }

  lemma SumOne(key: string, e: Entry)
    ensures Sum(map[key := e]) == e
  {
    SumAdd(map[], key, e);
    assert map[key := e] == map[][key := e];
  }
}
