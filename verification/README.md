# synator, modelled in Dafny

synator is a Kubernetes operator that copies secrets and config maps across
namespaces, and restarts deployments when an object they depend on changes.

- **Sync.** A secret or config map annotated `synator/sync: yes` is copied
  into the namespaces picked by its `synator/include-namespaces` allow-list or
  `synator/exclude-namespaces` deny-list (default: every other namespace).
  Each copy is patched if it can be read and patched, and created when
  either the read or the patch raises.
- **Backfill.** When a namespace is created, the flagged secrets are scanned
  in listing order. Each one is replayed into the new namespace when its
  include/exclude annotations admit that namespace. The scan ends at the
  first KeyError or failing create.
- **Restart.** When a watched config map or secret changes, every deployment
  in its namespace whose pod-template annotation `synator/reload` mentions
  `<kind>:<name>` gets its `synator/revision` counter bumped and is patched.
- **Scope.** All object events are filtered by the `WATCH_NAMESPACE` scope.

The model follows the handler file module by module:

- `Scope` is the scope filter.
- `Targets` is the target-namespace resolver. It is a method over a mutable
  list, proved against a specification function.
- `Resources` is the sanitising of a source object.
- `ControlPlane` is the object store. It is a class whose read, patch and
  create calls each fail on the conditions the API server would impose, or
  at keys named in a fault set. Every call is logged.
- `Sync` holds the two sync handlers and the namespace backfill.
- `Reload` holds the restart scan and the revision bump.
- `Text` and `Lists` model the Python built-ins these rely on:
  - `str.split`
  - `str.replace(' ', '')`
  - `int` / `str` on digit strings
  - substring `in`
  - `list.remove`

Every loop of the handlers is a `method` whose `ensures` ties its effect to a
recursive specification function. The properties are lemmas about those
functions.

How the handlers fail, as modelled:

- A read or patch that fails for any reason falls back to create, not only
  on not-found (handlers.py:28-33).
- A create that raises ends the sync handler, and the remaining targets are
  skipped (handlers.py:25-33). In backfill the outer `except` catches it and
  the scan ends (handlers.py:96-117).
- A flagged object without `field.cattle.io/projectId` raises KeyError
  before anything is written for it (handlers.py:21-22, 45-46, 102-103). In
  backfill this ends the whole scan.
- A revision that `int` cannot parse raises ValueError; it is not counted
  as 0 (handlers.py:158).
- A source namespace missing from the listing makes `list.remove` raise
  ValueError (handlers.py:18, 42).

## Model

| member | source | states |
|---|---|---|
| Scope.WatchListed | handlers.py:5-10 | for a scope written as comma-free names, a namespace is watched exactly when it is one of those names |
| Scope.WatchNamespace | handlers.py:5-10 | the empty scope watches every namespace; a non-empty scope never watches a name containing a comma, nor one longer than the scope string |
| Scope.WatchDoesNotTrim | handlers.py:6-8 | pieces are compared untrimmed: scope "team-a, team-b" rejects "team-b" and accepts " team-b" |
| Text.Split | handlers.py:6 | `str.split` returns at least one piece and no piece contains the separator |
| Text.JoinSplit | handlers.py:6 | joining the pieces of a split with the separator gives back the original string |
| Text.SplitJoin | handlers.py:65 | splitting a join of separator-free pieces gives back exactly those pieces |
| Text.RemoveSpaces | handlers.py:65 | `replace(' ', '')` leaves no blank and keeps exactly the non-blank characters |
| Text.PieceInJoin | handlers.py:146 | every piece of a joined list occurs as a substring of the joined string |
| Text.PieceInSplit | handlers.py:144-146 | every piece of a split value occurs as a substring of the value |
| Text.PrefixInFirstPiece | handlers.py:144-146 | a separator-free prefix of a string is a prefix of the first piece of its split |
| Text.SubstringInPiece | handlers.py:144-146 | a separator-free substring of a string lies inside some piece of its split |
| Text.SubstringTrans | handlers.py:146 | substring containment is transitive |
| Text.ParseNat | handlers.py:158 | `int` of a digit string is a natural number, at least 1 when the first digit is not 0 |
| Text.NatToString | handlers.py:160 | `str(n)` is a non-empty digit string, with a leading zero only for "0" itself |
| Text.ParseNatToString | handlers.py:158-160 | reading back `str(n)` with `int` gives `n` |
| Text.NatToStringParse | handlers.py:158-160 | for a canonical digit string, `str(int(s)) == s` |
| Lists.RemoveFirst | handlers.py:84 | removing `x` from a list: unchanged when `x` is absent, otherwise one shorter with exactly one occurrence of `x` fewer |
| Lists.RemoveFirstIsFirst | handlers.py:84 | the occurrence removed is the first: nothing before it equals `x`, and the result is the list with that one position cut out |
| Lists.RemoveFirstDistinct | handlers.py:18 | in a list without repetitions, removal takes `x` out entirely and keeps every other element |
| Lists.RemoveFirstSubsequence | handlers.py:84 | removal keeps the order of the remaining elements |
| Lists.MutableList.Remove | handlers.py:18 | `list.remove`: reports whether `x` was present (absent is Python's ValueError) and leaves the list with its first `x` removed |
| Lists.MutableList.Append | handlers.py:68 | `list.append` adds the element at the end |
| Targets.Tokens | handlers.py:77-80 | an annotation value always yields at least one comma-free token, so the "no values were parsed" warning cannot fire |
| Targets.TokensAreClean | handlers.py:65 | tokens contain neither blanks nor commas |
| Targets.ParseTargetNamespaces | handlers.py:60-89 | the returned list holds the resolved targets. With the include annotation it is a fresh list and the caller's list is untouched; otherwise it is the caller's own list, edited in place |
| Targets.CollectIncluded | handlers.py:61-71 | the include loop builds a fresh list of the tokens that are candidates, in token order |
| Targets.RemoveExcluded | handlers.py:74-87 | the exclude loop leaves the caller's list as the candidates with each token's first occurrence removed in turn |
| Targets.IncludedCount | handlers.py:63-71 | include branch: a namespace appears as often as among the tokens if it is a candidate, else never |
| Targets.IncludedOrder | handlers.py:66-68 | include branch: the result is a sub-list of the tokens |
| Targets.ExcludedCount | handlers.py:82-87 | exclude branch: each occurrence count drops by the token count, not below zero |
| Targets.ExcludedOrder | handlers.py:82-84 | exclude branch: the result is a sub-list of the candidates |
| Targets.ExcludedDistinct | handlers.py:74-87 | over distinct candidates, the exclude result holds exactly the candidates that are not tokens |
| Targets.ExcludedAbsentTokens | handlers.py:82-87 | exclude tokens that name no candidate leave the list unchanged |
| Targets.Included | handlers.py:66-68 | the include loop returns no more names than there are tokens, and only names that are candidates |
| Targets.Excluded | handlers.py:82-84 | the exclude loop returns no more names than there are candidates, and only candidates |
| Targets.TargetNamespaces | handlers.py:60-89 | every resolved target is one of the candidates; with neither annotation the candidates come back unchanged |
| Targets.IncludeOverridesExclude | handlers.py:63-75 | with the include annotation present, adding or removing an exclude annotation changes nothing |
| Targets.BlankExcludeRemovesNothing | handlers.py:75-87 | an all-blank exclude value removes nothing from candidates that do not include "" |
| Targets.BackfillTargetsOnlyNew | handlers.py:106 | resolving against `[name]` can only target `name` |
| Targets.SyncTargetsSkipSource | handlers.py:17-25 | with distinct namespace names, the source namespace is never a sync target |
| Targets.TokensAfterBlank | handlers.py:65 | blanks after a comma are dropped: "b, c" yields exactly the tokens b and c |
| Targets.IncludedAllPresent | handlers.py:66-68 | when every include token names a candidate, the result is exactly the tokens in order |
| Targets.IncludeExample | handlers.py:63-68 | "team-b, team-c" over team-b, team-c, team-d targets exactly team-b then team-c |
| Resources.Sanitized | handlers.py:21-24 | succeeds iff both the sync flag and the project id are present (KeyError on the first missing one). On success neither key remains, all other annotations, name, namespace and payload are kept, and the resource version and uid are cleared |
| ControlPlane.Store.Read | handlers.py:20 | the read returns the stored object exactly when it exists and no fault applies, and changes no object |
| ControlPlane.Store.Patch | handlers.py:30 | the patch succeeds iff the object exists and no fault applies; it writes the body's annotations and payload |
| ControlPlane.Store.Create | handlers.py:33 | the create succeeds iff the key is free and no fault applies |
| Sync.UpsertTargets | handlers.py:25-33 | the per-target read/patch/create loop has exactly the effect of the upsert specification, stopping at the first create that raises |
| Sync.UpsertAllStops | handlers.py:31-33 | after a create raises, no later target is touched |
| Sync.UpsertAllAborts | handlers.py:28-33 | a failed loop equals the loop up to and including the one target whose create raised |
| Sync.UpsertOne | handlers.py:26-33 | an object that can be read and patched is patched with the body's annotations and payload; otherwise the body is created under its own name exactly when that key is free and the create does not fault, and nothing else changes |
| Sync.UpsertOneCalls | handlers.py:28-33 | each upsert reads first. It creates iff the read or the patch raised; when both succeed, the calls are exactly a read and a patch |
| Sync.UpsertAllFrame | handlers.py:25-33 | the loop changes no object outside the target namespaces, and none whose name is neither the event's name nor the object's |
| Sync.UpsertAllInstalls | handlers.py:25-33 | after a loop that completes, every target holds a copy with the object's annotations and payload |
| Sync.UpsertIdempotent | handlers.py:28-33 | upserting the same object twice leaves the store as after once, whichever of the calls fault |
| Sync.SyncObject | handlers.py:14-33 | the shared handler body has exactly the effect and outcome of the sync-event specification. The error outcomes are: listing fails, source namespace not listed, source read fails, missing annotation, or create fails |
| Sync.UpdateSecret | handlers.py:12-33 | `update_secret` is the sync event on the secrets store |
| Sync.UpdateConfigMap | handlers.py:36-57 | `updateConfigMap` is the sync event on the config-map store |
| Sync.SyncSparesSource | handlers.py:17-33 | a sync event changes nothing in the source namespace or in any non-target namespace |
| Sync.SyncInstallsReplicas | handlers.py:20-33 | a completed sync leaves in every target a replica with the source's payload and the source's annotations with their values, minus the sync flag and the project id |
| Sync.Flagged | handlers.py:101 | a flagged secret has a non-empty annotation map holding the sync flag, so sanitising it cannot raise KeyError for the flag |
| Sync.NewNamespace | handlers.py:92-117 | the backfill loop has exactly the effect of the backfill specification. A listing or create failure is caught; a KeyError propagates |
| Sync.BackfillAllStops | handlers.py:96-117 | after the first secret that does not complete, no later secret is looked at |
| Sync.BackfillInstalls | handlers.py:99-115 | a completed backfill over flagged secrets with distinct names has sanitised every flagged secret, and the new namespace holds a copy, with the sanitised annotations and the secret's payload, of each one whose annotations admit it |
| Sync.BackfillOnlyNewNamespace | handlers.py:99-115 | backfill changes no object outside the new namespace |
| Reload.BumpRevision | handlers.py:154-160 | succeeds iff the revision is absent or decimal, otherwise ValueError. The new revision is a decimal without a leading zero, as `str` writes it, whose value is the old one plus one (absent counts as 0), and every other annotation is unchanged |
| Reload.AppsApi.Patch | handlers.py:163-166 | the deployment patch succeeds iff the deployment exists and no fault applies; every patch is logged |
| Reload.UpdateDeployment | handlers.py:152-166 | `update_deployment` has exactly the effect of bumping the revision and then patching |
| Reload.ReloadDeploymentsSync | handlers.py:130-150 | the scan has exactly the effect and outcome of the reload specification. A listing or patch failure is caught; a ValueError propagates |
| Reload.ReloadDeploymentConfig | handlers.py:120-123 | a config map update scans for the key "configmap:<name>" |
| Reload.ReloadDeploymentSecret | handlers.py:124-127 | a secret update scans for the key "secret:<name>" |
| Reload.ReloadAllStops | handlers.py:139-150 | after the first failing deployment, no later one is looked at |
| Reload.ReloadPatches | handlers.py:139-150 | a completed scan patches each matching deployment exactly once, in listing order. Any scan has patched a prefix of those, and only a patch failure or a ValueError stops it |
| Reload.ReloadFrame | handlers.py:139-148 | a deployment that does not match is not changed |
| Reload.ReloadBumps | handlers.py:140-166 | a completed scan over distinct deployment keys has bumped every matching deployment: its revision was absent or decimal, and its stored template is the listed one with the revision bumped |
| Reload.UpdateDeploymentBumps | handlers.py:152-166 | a completed update adds exactly one patch. It changes only that deployment, whose revision becomes the old value plus one, written without a leading zero, while every other annotation of the listed template is kept |
| Reload.DependsOnToken | handlers.py:141-147 | a reload token equal to the search key selects the deployment |
| Reload.DependsOn | handlers.py:141-146 | a selected deployment has a reload annotation that contains the search key |
| Reload.DependsOnIff | handlers.py:141-146 | for a key without commas, a deployment is selected exactly when its reload annotation is non-empty and contains the key |
| Reload.LooseMatch | handlers.py:137-147 | matching is containment: "configmap:app-config-2" selects the deployment when config map "app-config" changes |
| Reload.UnrelatedNotMatched | handlers.py:137-147 | "secret:unrelated" does not select the deployment when config map "app-config" changes |
| Reload.FirstRevision | handlers.py:155-157 | an absent revision becomes "1" |
| Reload.NextRevision | handlers.py:158-160 | revision "3" becomes "4" |

## Left out

- Framework routing (event decorators, the annotation filter `synator/sync: yes`, and the `when=watch_namespace` hook) is left out. Handlers are called directly, and the scope is a parameter rather than the environment variable read at start-up.
- Logging and `print` are left out: they have no effect on state.
- The real Kubernetes client is replaced by the stores in `ControlPlane` and `Reload.AppsApi`. The listings (namespaces, all secrets, deployments of a namespace) are inputs, with None standing for a listing call that raises.
- Any ApiException other than not-found or conflict is a key in a fault set. Its status code is not modelled. A fault holds for the whole event: a call at a faulted key raises every time, so a call cannot fail once and then succeed later in the same event (for example when a repeated include token upserts into the same namespace twice).
- A patch replaces the stored annotations and payload (or the template annotations) with the body's. The real API applies a merge patch, which keeps annotation and data keys that only the stored object has; the model drops them.
- Sync.SyncInstallsReplicas: its `<==>` between a replica's annotations and the sanitised source's holds only because the model's patch replaces them. Under a real merge patch, a replica that already existed may keep annotation and data keys the source lacks.
- Server-assigned fields (resource version, uid) of a created copy are kept as the cleared body sends them.
- A missing annotation map (Python None) is the empty map.
- Reload.BumpRevision: treats as ValueError every revision that is not plain ASCII digits. Python's `int` also accepts signs, surrounding whitespace, underscores and non-ASCII digits.
- The in-place mutation of the listed object is not modelled as aliasing: the revision written into the listed deployment's annotations, and the namespace written into the secret between targets, are local values. Only the list returned by the target resolver keeps its aliasing.
- Concurrent events and races between a read and the following patch or create are left out.
- Config maps are not backfilled into a new namespace; the handler only replays secrets.
