/** What saving the exposure editor does to the models a client can see. */
module ModelsLaws {
  import opened Base
  import opened Models

  /** Every unified ID carries its gateway. */
  predicate HasGateway(id: string) {
    HasPrefix(id, CMDCODE + "/") || HasPrefix(id, OPENCODE + "/")
  }

  lemma UnifiedHasGateways(catalogs: map<string, seq<ModelInfo>>)
    ensures forall id :: id in Ids(Unified(catalogs)) ==> HasGateway(id)
  {
  }

  lemma {:induction false} InUnchecked(ids: seq<string>, checked: set<string>, u: string)
    ensures u in Unchecked(ids, checked) <==> u in ids && u !in checked
  {
    if ids != [] {
      InUnchecked(ids[..|ids| - 1], checked, u);
    }
  }

  /** A checked model that an unchecked ID begins stays hidden. */
  lemma CheckedCanStayHidden(excludes: seq<string>)
    ensures var ids := ["cmdcode/a", "cmdcode/ab"];
            Excluded("cmdcode/ab", Updated(ids, {"cmdcode/ab"}, excludes))
  {
    var u, m := "cmdcode/a", "cmdcode/ab";
    assert HasPrefix(u, CMDCODE + "/") && HasPrefix(m, CMDCODE + "/");
    assert TrimSpace(u) == u && HasPrefix(m, u) && |u| != |m|;
    assert [u, m][0] == u && [u, m][1] == m;
    assert Shadowed([u, m], {m}, m);
    UpdateHides([u, m], {m}, excludes, m);
  }

  /** An update keeps of the old list exactly the entries that are no catalog ID and hide no catalog model. */
  lemma {:induction false} KeptHideNothing(ids: seq<string>, excludes: seq<string>, e: string)
    ensures e in Kept(ids, excludes) <==> e in excludes && e !in ids && forall m :: m in ids ==> !Hides(e, m)
  {
    if excludes != [] {
      KeptHideNothing(ids, excludes[..|excludes| - 1], e);
    }
  }

  lemma ExcludedBy(model: string, excludes: seq<string>)
    ensures Excluded(model, excludes) <==> exists e :: e in excludes && Hides(e, model)
  {
  }

  lemma {:induction false} TrimRightKeeps(s: string, n: nat)
    requires 0 < n <= |s| && !IsSpace(s[n - 1])
    ensures |TrimRight(s)| >= n && HasPrefix(s, TrimRight(s))
  {
    if IsSpace(s[|s| - 1]) {
      TrimRightKeeps(s[..|s| - 1], n);
    }
  }

  /** Trimming an ID with a gateway only takes space off its end, and leaves the slash. */
  lemma TrimmedId(id: string)
    requires HasGateway(id)
    ensures TrimSpace(id) != "" && HasPrefix(id, TrimSpace(id)) && '/' in TrimSpace(id)
  {
    var g := if HasPrefix(id, CMDCODE + "/") then CMDCODE else OPENCODE;
    assert id[|g|] == (g + "/")[|g|] == '/' && id[0] == (g + "/")[0] == g[0];
    assert TrimLeft(id) == id;
    TrimRightKeeps(id, |g| + 1);
    assert TrimSpace(id)[|g|] == id[|g|];
  }

  lemma {:induction false} BaseNameHasNoSlash(model: string)
    ensures '/' !in BaseName(model)
  {
    if '/' in model && !(model[0] == '/' && '/' !in model[1..]) {
      BaseNameHasNoSlash(model[1..]);
    }
  }

  /** A catalog ID hides exactly the models it begins. */
  lemma CatalogIdHides(u: string, model: string)
    requires HasGateway(u)
    ensures Hides(u, model) <==> HasPrefix(model, TrimSpace(u))
  {
    TrimmedId(u);
    BaseNameHasNoSlash(model);
    if HasPrefix(BaseName(model), TrimSpace(u)) {
      PrefixChars(BaseName(model), TrimSpace(u), '/');
    }
  }

  lemma PrefixChars(s: string, p: string, c: char)
    requires HasPrefix(s, p) && c in p
    ensures c in s
  {
  }

  /** An unchecked ID begins this one. */
  predicate Shadowed(ids: seq<string>, checked: set<string>, model: string) {
    exists u :: u in ids && u !in checked && HasPrefix(model, TrimSpace(u))
  }

  /** After an update a catalog model is hidden exactly when an unchecked catalog ID, trimmed, is a prefix of it. */
  lemma UpdateHides(ids: seq<string>, checked: set<string>, excludes: seq<string>, model: string)
    requires model in ids && forall id :: id in ids ==> HasGateway(id)
    ensures Excluded(model, Updated(ids, checked, excludes)) <==> Shadowed(ids, checked, model)
  {
    var updated := Updated(ids, checked, excludes);
    ExcludedBy(model, updated);
    if e :| e in updated && Hides(e, model) {
      InUnchecked(ids, checked, e);
      KeptHideNothing(ids, excludes, e);
      CatalogIdHides(e, model);
    }
    if u :| u in ids && u !in checked && HasPrefix(model, TrimSpace(u)) {
      InUnchecked(ids, checked, u);
      CatalogIdHides(u, model);
      assert u in updated;
    }
  }

  /** So the editor's choice is honoured for the whole catalog exactly when no unchecked ID begins a checked one. */
  lemma ChoiceIsHonoured(ids: seq<string>, checked: set<string>, excludes: seq<string>)
    requires forall id :: id in ids ==> HasGateway(id) && TrimSpace(id) == id
    ensures (forall m :: m in ids ==> (!Excluded(m, Updated(ids, checked, excludes)) <==> m in checked)) <==>
            (forall u, m :: u in ids && m in ids && u !in checked && m in checked ==> !HasPrefix(m, u))
  {
    forall m | m in ids ensures Excluded(m, Updated(ids, checked, excludes)) <==> Shadowed(ids, checked, m) {
      UpdateHides(ids, checked, excludes, m);
    }
    forall m | m in ids && m !in checked ensures Shadowed(ids, checked, m) {
      assert HasPrefix(m, TrimSpace(m));
    }
    forall u, m | u in ids && m in ids && u !in checked && HasPrefix(m, u) ensures Shadowed(ids, checked, m) {
      assert HasPrefix(m, TrimSpace(u));
    }
  }

  /** For the catalog the gateway really serves, every ID of which carries its gateway. */
  lemma UnifiedUpdateHides(catalogs: map<string, seq<ModelInfo>>, checked: set<string>, excludes: seq<string>, model: string)
    requires model in Ids(Unified(catalogs))
    ensures var ids := Ids(Unified(catalogs));
            Excluded(model, Updated(ids, checked, excludes)) <==> Shadowed(ids, checked, model)
  {
    UnifiedHasGateways(catalogs);
    UpdateHides(Ids(Unified(catalogs)), checked, excludes, model);
  }

  lemma UnifiedChoiceIsHonoured(catalogs: map<string, seq<ModelInfo>>, checked: set<string>, excludes: seq<string>)
    requires forall id :: id in Ids(Unified(catalogs)) ==> TrimSpace(id) == id
    ensures var ids := Ids(Unified(catalogs));
            (forall m :: m in ids ==> (!Excluded(m, Updated(ids, checked, excludes)) <==> m in checked)) <==>
            (forall u, m :: u in ids && m in ids && u !in checked && m in checked ==> !HasPrefix(m, u))
  {
    UnifiedHasGateways(catalogs);
    ChoiceIsHonoured(Ids(Unified(catalogs)), checked, excludes);
  }

  lemma {:induction false} KeptAppend(ids: seq<string>, a: seq<string>, b: seq<string>)
    ensures Kept(ids, a + b) == Kept(ids, a) + Kept(ids, b)
  {
    if b == [] {
      assert a + b == a;
    } else {
      assert (a + b)[..|a + b| - 1] == a + b[..|b| - 1];
      KeptAppend(ids, a, b[..|b| - 1]);
    }
  }

  lemma {:induction false} KnownAreDropped(ids: seq<string>, excludes: seq<string>)
    requires forall e :: e in excludes ==> e in ids
    ensures Kept(ids, excludes) == []
  {
    if excludes != [] {
      KnownAreDropped(ids, excludes[..|excludes| - 1]);
    }
  }

  lemma {:induction false} KeptAgain(ids: seq<string>, excludes: seq<string>)
    ensures Kept(ids, Kept(ids, excludes)) == Kept(ids, excludes)
  {
    if excludes != [] {
      var init, last := excludes[..|excludes| - 1], excludes[|excludes| - 1];
      KeptAgain(ids, init);
      if Foreign(ids, last) {
        KeptAppend(ids, Kept(ids, init), [last]);
        assert [last][..0] == [] && Kept(ids, [last]) == Kept(ids, []) + [last] == [last];
      } else {
        assert Kept(ids, excludes) == Kept(ids, init);
      }
    }
  }

  /** Saving the same choice again changes nothing. */
  lemma UpdateIsIdempotent(ids: seq<string>, checked: set<string>, excludes: seq<string>)
    ensures Updated(ids, checked, Updated(ids, checked, excludes)) == Updated(ids, checked, excludes)
  {
    var unchecked, kept := Unchecked(ids, checked), Kept(ids, excludes);
    KeptAppend(ids, unchecked, kept);
    forall e | e in unchecked ensures e in ids {
      InUnchecked(ids, checked, e);
    }
    KnownAreDropped(ids, unchecked);
    KeptAgain(ids, excludes);
  }

  /** What the editor shows as exposed. */
  function Shown(ids: seq<string>, excludes: seq<string>): set<string> {
    set id | id in ids && !Excluded(id, excludes)
  }

  /** Saving exactly what the editor showed leaves every catalog model as it was, exactly when no hidden ID begins
      a shown one. */
  lemma SavingWhatIsShown(ids: seq<string>, excludes: seq<string>)
    requires forall id :: id in ids ==> HasGateway(id) && TrimSpace(id) == id
    ensures Shown(ids, Updated(ids, Shown(ids, excludes), excludes)) == Shown(ids, excludes) <==>
            forall u, m :: u in ids && m in ids && Excluded(u, excludes) && !Excluded(m, excludes) ==> !HasPrefix(m, u)
  {
    var shown := Shown(ids, excludes);
    ChoiceIsHonoured(ids, shown, excludes);
    var updated := Updated(ids, shown, excludes);
    if Shown(ids, updated) == shown {
      forall m | m in ids ensures !Excluded(m, updated) <==> m in shown {
        assert m in Shown(ids, updated) <==> m in shown;
      }
    }
  }

  // ---------------------------------------------------------------- the words of the wire

  /** An entry hides a model when, trimmed and not blank, it begins the ID or what follows the ID's last slash. */
  lemma HidesMeaning(e: string, model: string)
    ensures Hides(e, model) <==>
            && TrimSpace(e) != ""
            && (TrimSpace(e) <= model || exists head, last :: model == head + "/" + last && '/' !in last && TrimSpace(e) <= last)
  {
    if '/' in model {
      var head, last := LastPart(model);
      forall h, l | model == h + "/" + l && '/' !in l ensures l == last {
        LastPartIsUnique(model, h, l);
        LastPartIsUnique(model, head, last);
      }
      LastPartIsUnique(model, head, last);
    }
  }

  lemma {:induction false} LastPart(model: string) returns (head: string, last: string)
    requires '/' in model
    ensures model == head + "/" + last && '/' !in last
  {
    var m := |model| - 1;
    if model[m] == '/' {
      head, last := model[..m], "";
    } else {
      assert model == model[..m] + [model[m]];
      head, last := LastPart(model[..m]);
      last := last + [model[m]];
    }
  }

  lemma LastPartIsUnique(model: string, head: string, last: string)
    requires model == head + "/" + last && '/' !in last
    ensures BaseName(model) == last
  {
    assert model[|head|] == '/' && model[|head| + 1..] == last;
    BaseNameAt(model, |head|);
  }

  /** A catalog entry under a longer ID. */
  predicate Lists(all: seq<ModelInfo>, at: nat, prefix: string, models: seq<ModelInfo>) {
    at + |models| <= |all| && forall i :: 0 <= i < |models| ==> all[at + i] == ModelInfo(prefix + models[i].id, models[i].data)
  }

  lemma PrefixedLists(gateway: string, prefix: string, models: seq<ModelInfo>)
    requires prefix == gateway + "/"
    ensures Lists(Prefixed(gateway, models), 0, prefix, models)
  {
  }

  lemma ListsApart(a: seq<ModelInfo>, b: seq<ModelInfo>, p: string, first: seq<ModelInfo>, q: string, second: seq<ModelInfo>)
    requires |a| == |first| && Lists(a, 0, p, first) && Lists(b, 0, q, second)
    ensures Lists(a + b, 0, p, first) && Lists(a + b, |first|, q, second)
  {
  }

  /** The unified catalog lists the cmdcode models and then the opencode models, each under its gateway's prefix. */
  lemma UnifiedMeaning(catalogs: map<string, seq<ModelInfo>>)
    ensures var first, second, all := Bucket(catalogs, "cmdcode"), Bucket(catalogs, "opencode"), Unified(catalogs);
            |all| == |first| + |second| && Lists(all, 0, "cmdcode/", first) && Lists(all, |first|, "opencode/", second)
  {
    var first, second := Bucket(catalogs, "cmdcode"), Bucket(catalogs, "opencode");
    PrefixedLists(CMDCODE, "cmdcode/", first);
    PrefixedLists(OPENCODE, "opencode/", second);
    ListsApart(Prefixed(CMDCODE, first), Prefixed(OPENCODE, second), "cmdcode/", first, "opencode/", second);
  }
}
