/** models.go and the exposure editor of admin.go: the unified catalog and the prefixes that hide models from it. */
module Models {
  import opened Base

  const CMDCODE := "cmdcode"
  const OPENCODE := "opencode"

  /** A catalog entry; data stands for everything but its ID. */
  datatype ModelInfo = ModelInfo(id: string, data: string)

  function Prefixed(gateway: string, models: seq<ModelInfo>): (r: seq<ModelInfo>)
    ensures |r| == |models|
    ensures forall i :: 0 <= i < |r| ==> r[i] == models[i].(id := gateway + "/" + models[i].id)
  {
    seq(|models|, i requires 0 <= i < |models| => models[i].(id := gateway + "/" + models[i].id))
  }

  function Bucket(catalogs: map<string, seq<ModelInfo>>, gateway: string): seq<ModelInfo> {
    if gateway in catalogs then catalogs[gateway] else []
  }

  function Unified(catalogs: map<string, seq<ModelInfo>>): seq<ModelInfo> {
    Prefixed(CMDCODE, Bucket(catalogs, CMDCODE)) + Prefixed(OPENCODE, Bucket(catalogs, OPENCODE))
  }

  class ModelCatalogs {
    var catalogs: map<string, seq<ModelInfo>>
    var unified: seq<ModelInfo>

    ghost predicate Valid()
      reads this
    {
      unified == Unified(catalogs)
    }

    constructor ()
      ensures Valid() && catalogs == map[]
    {
      catalogs, unified := map[], [];
    }

    method SetGatewayCatalog(gateway: string, models: seq<ModelInfo>)
      requires Valid()
      modifies this
      ensures Valid() && catalogs == old(catalogs)[gateway := models]
    {
      catalogs := catalogs[gateway := models];
      RefreshUnifiedCatalog();
    }

    method RefreshUnifiedCatalog()
      modifies this`unified
      ensures Valid()
    {
      var out := [];
      var gateways := [CMDCODE, OPENCODE];
      for g := 0 to 2
        invariant out == if g == 0 then [] else if g == 1 then Prefixed(CMDCODE, Bucket(catalogs, CMDCODE)) else Unified(catalogs)
      {
        var bucket := Bucket(catalogs, gateways[g]);
        ghost var before := out;
        for i := 0 to |bucket|
          invariant out == before + Prefixed(gateways[g], bucket)[..i]
        {
          var m := bucket[i];
          out := out + [m.(id := gateways[g] + "/" + m.id)];
        }
        assert Prefixed(gateways[g], bucket)[..|bucket|] == Prefixed(gateways[g], bucket);
      }
      unified := out;
    }
  }

  // ---------------------------------------------------------------- exclusion

  predicate HasPrefix(s: string, p: string) {
    |p| <= |s| && s[..|p|] == p
  }

  /** What follows the last slash; the whole ID when there is none. */
  function BaseName(model: string): string
  {
    if '/' !in model then model else if model[0] == '/' && '/' !in model[1..] then model[1..] else BaseName(model[1..])
  }

  /** One exclude entry hides a model when, trimmed and not blank, it begins the ID or its last part. */
  predicate Hides(e: string, model: string) {
    Begins(e, model) || Begins(e, BaseName(model))
  }

  predicate Begins(e: string, s: string) {
    TrimSpace(e) != "" && HasPrefix(s, TrimSpace(e))
  }

  predicate Excluded(model: string, excludes: seq<string>) {
    exists i :: 0 <= i < |excludes| && Hides(excludes[i], model)
  }

  method LastSlash(s: string) returns (idx: int)
    ensures -1 <= idx < |s|
    ensures idx >= 0 ==> s[idx] == '/' && '/' !in s[idx + 1..]
    ensures idx < 0 ==> '/' !in s
  {
    idx := |s| - 1;
    while idx >= 0 && s[idx] != '/'
      invariant -1 <= idx < |s|
      invariant '/' !in s[idx + 1..]
    {
      idx := idx - 1;
    }
  }

  lemma {:induction false} BaseNameAt(s: string, idx: nat)
    requires idx < |s| && s[idx] == '/' && '/' !in s[idx + 1..]
    ensures BaseName(s) == s[idx + 1..]
  {
    if idx > 0 {
      assert s[1..][idx - 1] == '/' && s[1..][idx..] == s[idx + 1..];
      BaseNameAt(s[1..], idx - 1);
    }
  }

  method IsModelExcluded(model: string, excludes: seq<string>) returns (r: bool)
    ensures r == Excluded(model, excludes)
  {
    if |excludes| == 0 {
      return false;
    }
    r := AnyBegins(model, excludes);
    var idx := LastSlash(model);
    if !r && idx >= 0 {
      BaseNameAt(model, idx);
      r := AnyBegins(model[idx + 1..], excludes);
    }
  }

  /** The inner loop, for one candidate. */
  method AnyBegins(candidate: string, excludes: seq<string>) returns (r: bool)
    ensures r <==> exists i :: 0 <= i < |excludes| && Begins(excludes[i], candidate)
  {
    if candidate == "" {
      return false;
    }
    for i := 0 to |excludes|
      invariant forall h :: 0 <= h < i ==> !Begins(excludes[h], candidate)
    {
      var e := TrimSpace(excludes[i]);
      if e == "" {
        continue;
      }
      if |e| <= |candidate| && candidate[..|e|] == e {
        return true;
      }
    }
    return false;
  }

  // ---------------------------------------------------------------- the exposure editor

  function Ids(models: seq<ModelInfo>): (ids: seq<string>)
    ensures |ids| == |models| && forall i :: 0 <= i < |ids| ==> ids[i] == models[i].id
  {
    seq(|models|, i requires 0 <= i < |models| => models[i].id)
  }

  function Checked(exposed: seq<string>): set<string> {
    set i | 0 <= i < |exposed| :: TrimSpace(exposed[i])
  }

  /** The catalog IDs left unchecked, in catalog order. */
  function Unchecked(ids: seq<string>, checked: set<string>): seq<string> {
    if ids == [] then []
    else Unchecked(ids[..|ids| - 1], checked) + (if ids[|ids| - 1] in checked then [] else [ids[|ids| - 1]])
  }

  /** An exclude entry about models outside the catalog. */
  predicate Foreign(ids: seq<string>, e: string) {
    e !in ids && forall i :: 0 <= i < |ids| ==> !Hides(e, ids[i])
  }

  function Kept(ids: seq<string>, excludes: seq<string>): seq<string> {
    if excludes == [] then []
    else
      var last := excludes[|excludes| - 1];
      Kept(ids, excludes[..|excludes| - 1]) + (if Foreign(ids, last) then [last] else [])
  }

  function Updated(ids: seq<string>, checked: set<string>, excludes: seq<string>): seq<string> {
    Unchecked(ids, checked) + Kept(ids, excludes)
  }

  /** The exclude list handleAdminModelsPut stores. */
  method UpdateExposure(catalog: seq<ModelInfo>, exposedIds: seq<string>, current: seq<string>) returns (excludes: seq<string>)
    ensures excludes == Updated(Ids(catalog), Checked(exposedIds), current)
  {
    var exposed: set<string> := {};
    for i := 0 to |exposedIds|
      invariant exposed == Checked(exposedIds[..i])
    {
      assert exposedIds[..i + 1] == exposedIds[..i] + [exposedIds[i]];
      CheckedNext(exposedIds[..i], exposedIds[i]);
      exposed := exposed + {TrimSpace(exposedIds[i])};
    }
    assert exposedIds[..|exposedIds|] == exposedIds;
    ghost var ids := Ids(catalog);
    var known: set<string> := {};
    excludes := [];
    for i := 0 to |catalog|
      invariant excludes == Unchecked(ids[..i], exposed)
      invariant known == set k | 0 <= k < i :: ids[k]
    {
      var id := catalog[i].id;
      assert ids[..i + 1][..i] == ids[..i];
      known := known + {id};
      if id !in exposed {
        excludes := excludes + [id];
      }
    }
    assert ids[..|ids|] == ids;
    for i := 0 to |current|
      invariant excludes == Unchecked(ids, exposed) + Kept(ids, current[..i])
    {
      assert current[..i + 1][..i] == current[..i];
      var foreign := IsForeign(ids, known, current[i]);
      if foreign {
        excludes := excludes + [current[i]];
      }
    }
    assert current[..|current|] == current;
  }

  /** Neither a known ID nor a prefix that hides one. */
  method IsForeign(ghost ids: seq<string>, known: set<string>, e: string) returns (r: bool)
    requires known == set k | 0 <= k < |ids| :: ids[k]
    ensures r == Foreign(ids, e)
  {
    if e in known {
      return false;
    }
    var todo := known;
    while todo != {}
      invariant todo <= known
      invariant forall id :: id in known && id !in todo ==> !Hides(e, id)
      decreases |todo|
    {
      var id :| id in todo;
      var hidden := IsModelExcluded(id, [e]);
      assert [e][0] == e;
      if hidden {
        return false;
      }
      todo := todo - {id};
    }
    return true;
  }

  lemma CheckedNext(exposed: seq<string>, id: string)
    ensures Checked(exposed + [id]) == Checked(exposed) + {TrimSpace(id)}
  {
    var more := exposed + [id];
    assert more[|exposed|] == id;
    forall x | x in Checked(exposed) ensures x in Checked(more) {
      var i :| 0 <= i < |exposed| && TrimSpace(exposed[i]) == x;
      assert more[i] == exposed[i];
    }
  }
}
