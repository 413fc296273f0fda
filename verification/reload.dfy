/**
 * Rolling restarts on dependency change. When a watched config map or secret
 * is updated, every deployment listed in its namespace whose pod template
 * declares a dependency on it (the `synator/reload` template annotation) has
 * its `synator/revision` template annotation bumped and is patched, which
 * changes the pod template and so rolls its pods.
 */
module Reload {
  import opened Wrappers
  import opened Text
  import opened Resources
  import opened ControlPlane
  import opened Sync

  /** Template annotation listing what a deployment depends on: comma-separated
      `<kind>:<name>` tokens. */
  const ReloadKey := "synator/reload"
  /** Template annotation holding the restart counter this controller owns. */
  const RevisionKey := "synator/revision"

  /** A deployment as the apps API lists it: its key and its pod template's
      annotations (a template without annotations has the empty map). */
  datatype Deployment = Deployment(name: string, namespace: string, template: map<string, string>)

  /** What a deployment must mention to depend on the changed object:
      the kind ("configmap" or "secret"), a colon, and the object's name. */
  function SearchKey(kind: string, name: string): string
  {
    kind + ":" + name
  }

  /** The selection test: the reload annotation is present and non-empty, and
      some token of it split on ',' contains the search key as a substring.
      A selected deployment therefore mentions the search key somewhere in
      its reload annotation. */
  predicate DependsOn(template: map<string, string>, search: string)
    ensures DependsOn(template, search) ==> ReloadKey in template && IsSubstring(search, template[ReloadKey])
  {
    && ReloadKey in template && template[ReloadKey] != ""
    && var tokens := Split(template[ReloadKey], ',');
       assert forall i :: 0 <= i < |tokens| && IsSubstring(search, tokens[i]) ==> IsSubstring(search, template[ReloadKey]) by {
         forall i | 0 <= i < |tokens| && IsSubstring(search, tokens[i])
           ensures IsSubstring(search, template[ReloadKey])
         {
           PieceInSplit(template[ReloadKey], ',', i);
           SubstringTrans(search, tokens[i], template[ReloadKey]);
         }
       }
       exists i :: 0 <= i < |tokens| && IsSubstring(search, tokens[i])
  }

  /** The new template annotations: an absent revision becomes "1", a decimal
      revision `r` becomes `str(int(r) + 1)`, anything else makes `int()`
      raise ValueError. No other annotation changes. */
  function BumpRevision(template: map<string, string>): (r: Result<map<string, string>, Error>)
    ensures r.Ok? <==> RevisionKey !in template || IsDecimal(template[RevisionKey])
    ensures r.Err? ==> r.error == ValueError
    ensures r.Ok? ==>
              && RevisionKey in r.value && IsDecimal(r.value[RevisionKey]) && r.value[RevisionKey][0] != '0'
              && ParseNat(r.value[RevisionKey])
                 == (if RevisionKey in template then ParseNat(template[RevisionKey]) else 0) + 1
    ensures r.Ok? ==> forall k :: k != RevisionKey ==>
              && (k in r.value <==> k in template)
              && (k in template ==> r.value[k] == template[k])
  {
    if RevisionKey !in template then
      ParseNatToString(1);
      Ok(template[RevisionKey := NatToString(1)])
    else if IsDecimal(template[RevisionKey]) then
      var revision := ParseNat(template[RevisionKey]) + 1;
      ParseNatToString(revision);
      Ok(template[RevisionKey := NatToString(revision)])
    else
      Err(ValueError)
  }

  /** The deployments of the cluster and the patch calls made so far. */
  datatype Fleet = Fleet(deployments: map<Key, Deployment>, patches: seq<Key>)

  /** `patch_namespaced_deployment(name, ns, body)`: true when it does not
      raise. A missing deployment or a key in `faults` raises. */
  function PatchDeploymentStep(fl: Fleet, faults: set<Key>, k: Key, body: Deployment): (Fleet, bool)
  {
    var logged := fl.patches + [k];
    if k in fl.deployments && k !in faults
    then (Fleet(fl.deployments[k := fl.deployments[k].(template := body.template)], logged), true)
    else (fl.(patches := logged), false)
  }

  /** The apps API client. */
  class AppsApi {
    var fleet: Fleet
    const faults: set<Key>

    constructor (fleet: Fleet, faults: set<Key>)
      ensures this.fleet == fleet && this.faults == faults
    {
      this.fleet := fleet;
      this.faults := faults;
    }

    method Patch(k: Key, body: Deployment) returns (ok: bool)
      modifies this
      ensures (fleet, ok) == PatchDeploymentStep(old(fleet), faults, k, body)
      ensures ok <==> k in old(fleet.deployments) && k !in faults
    {
      var step := PatchDeploymentStep(fleet, faults, k, body);
      fleet, ok := step.0, step.1;
    }
  }

  /** `update_deployment`: bump the listed deployment's revision and patch it.
      A patch that raises is an ApiException the caller sees. */
  function UpdateDeploymentStep(fl: Fleet, faults: set<Key>, d: Deployment): (Fleet, Outcome)
  {
    match BumpRevision(d.template)
    case Err(e) => (fl, Raised(e))
    case Ok(template) =>
      var step := PatchDeploymentStep(fl, faults, Key(d.namespace, d.name), d.(template := template));
      (step.0, if step.1 then Completed else Raised(ApiError))
  }

  /** One deployment of the scan: updated when it depends on the object. */
  function ReloadOne(fl: Fleet, faults: set<Key>, d: Deployment, search: string): (Fleet, Outcome)
  {
    if DependsOn(d.template, search) then UpdateDeploymentStep(fl, faults, d) else (fl, Completed)
  }

  /** The scan over the listed deployments, in order; the first failure ends it. */
  function ReloadAll(fl: Fleet, faults: set<Key>, items: seq<Deployment>, search: string): (Fleet, Outcome)
  {
    if items == [] then (fl, Completed)
    else
      var (prev, outcome) := ReloadAll(fl, faults, items[..|items| - 1], search);
      if outcome != Completed then (prev, outcome) else ReloadOne(prev, faults, items[|items| - 1], search)
  }

  /** The handler's `except ApiException`, which wraps the whole scan. */
  function Handled(outcome: Outcome): Outcome
  {
    if outcome == Raised(ApiError) then Caught(ApiError) else outcome
  }

  /** The fleet after `reload_deployments_sync(meta, kind)`, given the listing
      of the object's namespace (None when listing raised). */
  function ReloadEvent(fl: Fleet, faults: set<Key>, listing: Option<seq<Deployment>>, kind: string, meta: Meta): (Fleet, Outcome)
  {
    if listing.None? then (fl, Caught(ApiError))
    else
      var (next, outcome) := ReloadAll(fl, faults, listing.value, SearchKey(kind, meta.name));
      (next, Handled(outcome))
  }

  /** `update_deployment`: the revision is computed, written into the template
      annotations, and the deployment is patched with them. */
  method UpdateDeployment(api: AppsApi, d: Deployment) returns (outcome: Outcome)
    modifies api
    ensures (api.fleet, outcome) == UpdateDeploymentStep(old(api.fleet), api.faults, d)
  {
    var template := d.template;
    var revision: nat;
    if RevisionKey !in template {
      revision := 1;
    } else if IsDecimal(template[RevisionKey]) {
      revision := ParseNat(template[RevisionKey]) + 1;
    } else {
      return Raised(ValueError);
    }
    template := template[RevisionKey := NatToString(revision)];
    var ok := api.Patch(Key(d.namespace, d.name), d.(template := template));
    outcome := if ok then Completed else Raised(ApiError);
  }

  /** `reload_deployments_sync`: scan the listed deployments and update each
      one that depends on the changed object. */
  method ReloadDeploymentsSync(api: AppsApi, listing: Option<seq<Deployment>>, meta: Meta, kind: string)
    returns (outcome: Outcome)
    modifies api
    ensures (api.fleet, outcome) == ReloadEvent(old(api.fleet), api.faults, listing, kind, meta)
  {
    if listing.None? {
      return Caught(ApiError);
    }
    var items := listing.value;
    var search := kind + ":" + meta.name;
    ghost var start := api.fleet;
    var i := 0;
    while i < |items|
      invariant 0 <= i <= |items|
      invariant (api.fleet, Completed) == ReloadAll(start, api.faults, items[..i], search)
    {
      assert items[..i + 1][..i] == items[..i];
      var template := items[i].template;
      var reloads: seq<string> := [];
      if ReloadKey in template && template[ReloadKey] != "" {
        reloads := Split(template[ReloadKey], ',');
      }
      if exists j :: 0 <= j < |reloads| && IsSubstring(search, reloads[j]) {
        var result := UpdateDeployment(api, items[i]);
        if result != Completed {
          ReloadAllStops(start, api.faults, items, search, i + 1);
          return Handled(result);
        }
      }
      i := i + 1;
    }
    assert items[..i] == items;
    return Completed;
  }

  /** `reload_deployment_config`: a config map update. */
  method ReloadDeploymentConfig(api: AppsApi, listing: Option<seq<Deployment>>, meta: Meta) returns (outcome: Outcome)
    modifies api
    ensures (api.fleet, outcome) == ReloadEvent(old(api.fleet), api.faults, listing, "configmap", meta)
  {
    outcome := ReloadDeploymentsSync(api, listing, meta, "configmap");
  }

  /** `reload_deployment_secret`: a secret update. */
  method ReloadDeploymentSecret(api: AppsApi, listing: Option<seq<Deployment>>, meta: Meta) returns (outcome: Outcome)
    modifies api
    ensures (api.fleet, outcome) == ReloadEvent(old(api.fleet), api.faults, listing, "secret", meta)
  {
    outcome := ReloadDeploymentsSync(api, listing, meta, "secret");
  }

  /** Once a deployment fails, the later ones are not looked at. */
  lemma {:induction false} ReloadAllStops(fl: Fleet, faults: set<Key>, items: seq<Deployment>, search: string, j: nat)
    requires j <= |items|
    requires ReloadAll(fl, faults, items[..j], search).1 != Completed
    ensures ReloadAll(fl, faults, items, search) == ReloadAll(fl, faults, items[..j], search)
    decreases |items|
  {
    if j < |items| {
      var init := items[..|items| - 1];
      assert init[..j] == items[..j];
      ReloadAllStops(fl, faults, init, search, j);
    } else {
      assert items[..j] == items;
    }
  }

  /** The keys of the listed deployments that depend on the object, in order. */
  function Matched(items: seq<Deployment>, search: string): seq<Key>
  {
    if items == [] then []
    else
      var last := items[|items| - 1];
      Matched(items[..|items| - 1], search) + (if DependsOn(last.template, search) then [Key(last.namespace, last.name)] else [])
  }

  /** The scan patches each matching deployment exactly once and in listing
      order; a scan that stops early has patched a prefix of those. Only a
      raising patch, or a ValueError, stops it, and neither is `Completed`. */
  lemma {:induction false} ReloadPatches(fl: Fleet, faults: set<Key>, items: seq<Deployment>, search: string)
    ensures var (next, outcome) := ReloadAll(fl, faults, items, search);
            && (outcome == Completed ==> next.patches == fl.patches + Matched(items, search))
            && (exists j :: 0 <= j <= |items| && next.patches == fl.patches + Matched(items[..j], search))
            && (outcome == Completed || outcome == Raised(ApiError) || outcome == Raised(ValueError))
  {
    if items == [] {
      assert items[..0] == items;
    } else {
      var init, last := items[..|items| - 1], items[|items| - 1];
      assert items[..|items|] == items;
      ReloadPatches(fl, faults, init, search);
      var (prev, outcome) := ReloadAll(fl, faults, init, search);
      if outcome != Completed {
        var j :| 0 <= j <= |init| && prev.patches == fl.patches + Matched(init[..j], search);
        assert init[..j] == items[..j];
      } else {
        assert Matched(items, search) == Matched(init, search) + (if DependsOn(last.template, search) then [Key(last.namespace, last.name)] else []);
        var (next, result) := ReloadOne(prev, faults, last, search);
        if DependsOn(last.template, search) && BumpRevision(last.template).Err? {
          assert init == items[..|init|];
        }
      }
    }
  }

  /** A deployment that is not among the matches keeps its template. */
  lemma {:induction false} ReloadFrame(fl: Fleet, faults: set<Key>, items: seq<Deployment>, search: string, k: Key)
    requires k !in Matched(items, search)
    ensures var next := ReloadAll(fl, faults, items, search).0;
            && (k in next.deployments <==> k in fl.deployments)
            && (k in fl.deployments ==> next.deployments[k] == fl.deployments[k])
  {
    if items != [] {
      var init := items[..|items| - 1];
      ReloadFrame(fl, faults, init, search, k);
    }
  }

  /** A scan that completes, over a listing whose deployment keys are
      distinct, has bumped every deployment that depends on the object: its
      revision was absent or decimal, and the stored template is the listed
      one with the revision bumped. */
  lemma {:induction false} ReloadBumps(fl: Fleet, faults: set<Key>, items: seq<Deployment>, search: string)
    requires ReloadAll(fl, faults, items, search).1 == Completed
    requires forall i, j :: 0 <= i < j < |items| ==>
               Key(items[i].namespace, items[i].name) != Key(items[j].namespace, items[j].name)
    ensures var next := ReloadAll(fl, faults, items, search).0;
            forall i :: 0 <= i < |items| && DependsOn(items[i].template, search) ==>
              && BumpRevision(items[i].template).Ok?
              && Key(items[i].namespace, items[i].name) in next.deployments
              && next.deployments[Key(items[i].namespace, items[i].name)].template == BumpRevision(items[i].template).value
  {
    if items != [] {
      var init, last := items[..|items| - 1], items[|items| - 1];
      ReloadBumps(fl, faults, init, search);
      forall i | 0 <= i < |items| - 1
        ensures items[i] == init[i]
      {
      }
    }
  }

  /** A completed update leaves the stored deployment with the listed
      template, its revision one more than before (or 1), and one patch call
      more; no other deployment changes. */
  lemma UpdateDeploymentBumps(fl: Fleet, faults: set<Key>, d: Deployment)
    requires UpdateDeploymentStep(fl, faults, d).1 == Completed
    ensures var next := UpdateDeploymentStep(fl, faults, d).0;
            var k := Key(d.namespace, d.name);
            && k in fl.deployments
            && next.patches == fl.patches + [k]
            && next.deployments == fl.deployments[k := fl.deployments[k].(template := next.deployments[k].template)]
            && RevisionKey in next.deployments[k].template
            && IsDecimal(next.deployments[k].template[RevisionKey])
            && next.deployments[k].template[RevisionKey][0] != '0'
            && ParseNat(next.deployments[k].template[RevisionKey])
               == (if RevisionKey in d.template then ParseNat(d.template[RevisionKey]) else 0) + 1
            && forall a :: a != RevisionKey ==>
                 && (a in next.deployments[k].template <==> a in d.template)
                 && (a in d.template ==> next.deployments[k].template[a] == d.template[a])
  {
  }

  /** A token equal to the search key selects the deployment. */
  lemma DependsOnToken(template: map<string, string>, tokens: seq<string>, search: string)
    requires |tokens| >= 1 && forall i :: 0 <= i < |tokens| ==> ',' !in tokens[i]
    requires ReloadKey in template && template[ReloadKey] == Join(tokens, ',')
    requires search in tokens && search != ""
    ensures DependsOn(template, search)
  {
    SplitJoin(tokens, ',');
    var i :| 0 <= i < |tokens| && tokens[i] == search;
    assert OccursAt(search, tokens[i], 0);
    PieceInJoin(tokens, ',', i);
  }

  /** Matching is containment, in both directions: for a key without commas
      (every `<kind>:<name>` key of a name without commas), a deployment is
      selected exactly when its reload annotation is non-empty and contains
      the key. */
  lemma DependsOnIff(template: map<string, string>, search: string)
    requires ',' !in search
    ensures DependsOn(template, search)
            <==> ReloadKey in template && template[ReloadKey] != "" && IsSubstring(search, template[ReloadKey])
  {
    if ReloadKey in template && template[ReloadKey] != "" && IsSubstring(search, template[ReloadKey]) {
      var k := SubstringInPiece(search, template[ReloadKey], ',');
    }
  }

  /** The match is containment, not equality: a deployment depending on
      "configmap:app-config-2" is restarted when "app-config" changes. */
  lemma LooseMatch(template: map<string, string>, value: string, name: string)
    requires value == "configmap:app-config-2" && name == "app-config"
    requires ReloadKey in template && template[ReloadKey] == value
    ensures DependsOn(template, SearchKey("configmap", name))
  {
    var search := SearchKey("configmap", name);
    assert value == search + "-2";
    assert ',' !in value;
    SplitPiece(value, ',');
    assert OccursAt(search, value, 0);
    assert IsSubstring(search, Split(value, ',')[0]);
  }

  /** A dependency on another object does not select the deployment: one
      depending on "secret:unrelated" is left alone when config map
      "app-config" changes. */
  lemma UnrelatedNotMatched(template: map<string, string>, value: string, name: string)
    requires value == "secret:unrelated" && name == "app-config"
    requires ReloadKey in template && template[ReloadKey] == value
    ensures !DependsOn(template, SearchKey("configmap", name))
  {
    var search := SearchKey("configmap", name);
    assert |value| < |search|;
  }

  /** A deployment whose revision is absent gets revision "1". */
  lemma FirstRevision(template: map<string, string>)
    requires RevisionKey !in template
    ensures BumpRevision(template) == Ok(template[RevisionKey := "1"])
  {
  }

  /** A deployment at revision "3" moves to revision "4". */
  lemma NextRevision(template: map<string, string>, three: string, four: string)
    requires three == "3" && four == "4"
    requires RevisionKey in template && template[RevisionKey] == three
    ensures BumpRevision(template) == Ok(template[RevisionKey := four])
  {
    assert three[..0] == [];
    assert ParseNat(three) == 3;
  }
}
