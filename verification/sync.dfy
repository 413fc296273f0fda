/**
 * The replication handlers: `update_secret` and `updateConfigMap` (copy a
 * flagged object from its namespace into the resolved target namespaces) and
 * `newNamespace` (copy every flagged secret into a namespace that was just
 * created). Each is a method over the store, proved equal to a function of
 * the old store; the lemmas below state what those functions promise.
 */
module Sync {
  import opened Wrappers
  import opened Lists
  import opened Targets
  import opened Resources
  import opened ControlPlane

  /** The event metadata a handler receives: the object's name, its namespace
      and its annotations. */
  datatype Meta = Meta(name: string, namespace: string, annotations: map<string, string>)

  /** How a handler ends: normally, after catching and printing an
      ApiException, or by letting an exception propagate to the framework. */
  datatype Outcome = Completed | Caught(error: Error) | Raised(error: Error)

  /** The upsert into one namespace: set the body's namespace, read the object
      there and patch it; if either call raises, create it instead. The result
      is false when that create raises too. On the stored objects: an object
      that can be read and patched is patched; otherwise the body is created
      under its own name unless that key is taken or the create faults. */
  function UpsertOne(w: World, f: Faults, name: string, obj: Resource, ns: string): (r: (World, bool))
    ensures var k := Key(ns, name);
            k in w.objects && k !in f.read && k !in f.patch ==>
              r.1 && r.0.objects == w.objects[k := Patched(w.objects[k], obj.(namespace := ns))]
    ensures var k, c := Key(ns, name), Key(ns, obj.name);
            !(k in w.objects && k !in f.read && k !in f.patch) ==>
              && (r.1 <==> c !in w.objects && c !in f.create)
              && r.0.objects == if r.1 then w.objects[c := obj.(namespace := ns)] else w.objects
  {
    var body := obj.(namespace := ns);
    var k := Key(ns, name);
    var (w1, found) := ReadStep(w, f, k);
    if found.Some? then
      var (w2, patched) := PatchStep(w1, f, k, body);
      if patched then (w2, true) else CreateStep(w2, f, Key(ns, obj.name), body)
    else CreateStep(w1, f, Key(ns, obj.name), body)
  }

  /** The upsert loop over the targets, in order; a create that raises ends it. */
  function UpsertAll(w: World, f: Faults, name: string, obj: Resource, targets: seq<string>): (World, bool)
  {
    if targets == [] then (w, true)
    else
      var (w1, ok) := UpsertAll(w, f, name, obj, targets[..|targets| - 1]);
      if !ok then (w1, false) else UpsertOne(w1, f, name, obj, targets[|targets| - 1])
  }

  /** The per-target loop shared by the three handlers. The one object is
      re-pointed at each target namespace in turn. */
  method UpsertTargets(store: Store, name: string, obj: Resource, targets: seq<string>) returns (ok: bool)
    modifies store
    ensures (store.world, ok) == UpsertAll(old(store.world), store.faults, name, obj, targets)
  {
    ghost var start := store.world;
    var body := obj;
    var i := 0;
    while i < |targets|
      invariant 0 <= i <= |targets|
      invariant body.(namespace := obj.namespace) == obj
      invariant (store.world, true) == UpsertAll(start, store.faults, name, obj, targets[..i])
    {
      UpsertAllStep(start, store.faults, name, obj, targets, i);
      var ns := targets[i];
      body := body.(namespace := ns);
      var found := store.Read(Key(ns, name));
      var patched := false;
      if found.Some? {
        patched := store.Patch(Key(ns, name), body);
      }
      if !patched {
        var created := store.Create(Key(ns, body.name), body);
        if !created {
          UpsertAllStops(start, store.faults, name, obj, targets, i + 1);
          return false;
        }
      }
      i := i + 1;
    }
    assert targets[..i] == targets;
    return true;
  }

  /** One more target is one more upsert, unless the loop has already stopped. */
  lemma UpsertAllStep(w: World, f: Faults, name: string, obj: Resource, targets: seq<string>, i: nat)
    requires i < |targets|
    requires UpsertAll(w, f, name, obj, targets[..i]).1
    ensures UpsertAll(w, f, name, obj, targets[..i + 1])
         == UpsertOne(UpsertAll(w, f, name, obj, targets[..i]).0, f, name, obj, targets[i])
  {
    assert targets[..i + 1][..i] == targets[..i];
  }

  /** Once a create has raised, later targets are not touched. */
  lemma {:induction false} UpsertAllStops(w: World, f: Faults, name: string, obj: Resource, targets: seq<string>, j: nat)
    requires j <= |targets|
    requires !UpsertAll(w, f, name, obj, targets[..j]).1
    ensures UpsertAll(w, f, name, obj, targets) == UpsertAll(w, f, name, obj, targets[..j])
    decreases |targets|
  {
    if j < |targets| {
      var init := targets[..|targets| - 1];
      assert init[..j] == targets[..j];
      UpsertAllStops(w, f, name, obj, init, j);
    } else {
      assert targets[..j] == targets;
    }
  }

  /** A create that raises aborts the loop: the result is exactly that of the
      targets up to and including the one whose create failed. */
  lemma {:induction false} UpsertAllAborts(w: World, f: Faults, name: string, obj: Resource, targets: seq<string>)
    requires !UpsertAll(w, f, name, obj, targets).1
    ensures exists j :: 0 <= j < |targets|
              && UpsertAll(w, f, name, obj, targets[..j]).1
              && !UpsertOne(UpsertAll(w, f, name, obj, targets[..j]).0, f, name, obj, targets[j]).1
              && UpsertAll(w, f, name, obj, targets) == UpsertOne(UpsertAll(w, f, name, obj, targets[..j]).0, f, name, obj, targets[j])
  {
    var init := targets[..|targets| - 1];
    var j := |targets| - 1;
    if UpsertAll(w, f, name, obj, init).1 {
      assert targets[..j] == init;
    } else {
      UpsertAllAborts(w, f, name, obj, init);
      var i :| 0 <= i < |init|
                && UpsertAll(w, f, name, obj, init[..i]).1
                && !UpsertOne(UpsertAll(w, f, name, obj, init[..i]).0, f, name, obj, init[i]).1
                && UpsertAll(w, f, name, obj, init) == UpsertOne(UpsertAll(w, f, name, obj, init[..i]).0, f, name, obj, init[i]);
      assert init[..i] == targets[..i];
    }
  }

  /** One upsert, as calls: it always reads first; it creates exactly when the
      read or the patch raised; otherwise it reads and patches and calls
      nothing else. */
  lemma UpsertOneCalls(w: World, f: Faults, name: string, obj: Resource, ns: string)
    ensures var k := Key(ns, name);
            var patchable := k in w.objects && k !in f.read && k !in f.patch;
            var w' := UpsertOne(w, f, name, obj, ns).0;
            && |w'.log| > |w.log|
            && w'.log[..|w.log| + 1] == w.log + [ReadCall(k)]
            && (CreateCall(Key(ns, obj.name)) in w'.log[|w.log|..] <==> !patchable)
            && (patchable ==> w'.log == w.log + [ReadCall(k), PatchCall(k)])
  {
    var k := Key(ns, name);
    var created := CreateCall(Key(ns, obj.name));
    var w' := UpsertOne(w, f, name, obj, ns).0;
    if k in w.objects && k !in f.read {
      if k !in f.patch {
        assert w'.log == w.log + [ReadCall(k), PatchCall(k)];
      } else {
        assert w'.log == w.log + [ReadCall(k), PatchCall(k), created];
      }
    } else {
      assert w'.log == w.log + [ReadCall(k), created];
    }
  }

  /** Only the keys the loop addresses are touched: those in a target
      namespace under the event's name or under the object's own name. */
  lemma {:induction false} UpsertAllFrame(w: World, f: Faults, name: string, obj: Resource, targets: seq<string>, k: Key)
    requires k.namespace !in targets || (k.name != name && k.name != obj.name)
    ensures var w' := UpsertAll(w, f, name, obj, targets).0;
            && (k in w'.objects <==> k in w.objects)
            && (k in w.objects ==> w'.objects[k] == w.objects[k])
  {
    if targets != [] {
      var init := targets[..|targets| - 1];
      UpsertAllFrame(w, f, name, obj, init, k);
    }
  }

  /** After a loop that ran to the end, every target holds the object's
      annotations and payload (under the object's own name). */
  lemma {:induction false} UpsertAllInstalls(w: World, f: Faults, obj: Resource, targets: seq<string>)
    requires UpsertAll(w, f, obj.name, obj, targets).1
    ensures var w' := UpsertAll(w, f, obj.name, obj, targets).0;
            forall t :: t in targets ==>
              && Key(t, obj.name) in w'.objects
              && w'.objects[Key(t, obj.name)].annotations == obj.annotations
              && w'.objects[Key(t, obj.name)].data == obj.data
  {
    if targets != [] {
      var init, last := targets[..|targets| - 1], targets[|targets| - 1];
      UpsertAllInstalls(w, f, obj, init);
      var w1 := UpsertAll(w, f, obj.name, obj, init).0;
      var w' := UpsertAll(w, f, obj.name, obj, targets).0;
      assert w' == UpsertOne(w1, f, obj.name, obj, last).0;
      forall t | t in targets
        ensures Key(t, obj.name) in w'.objects
        ensures w'.objects[Key(t, obj.name)].annotations == obj.annotations
        ensures w'.objects[Key(t, obj.name)].data == obj.data
      {
        if t != last {
          assert t in init;
        }
      }
    }
  }

  /** Upserting the same object twice into a namespace leaves the store as
      after the first upsert, whichever of its calls raise: a second read or
      patch that fails falls back to a create, which meets the object the
      first upsert left (or found) there and raises conflict. */
  lemma UpsertIdempotent(w: World, f: Faults, obj: Resource, ns: string)
    ensures var w1 := UpsertOne(w, f, obj.name, obj, ns).0;
            UpsertOne(w1, f, obj.name, obj, ns).0.objects == w1.objects
  {
  }

  /** The store after `update_secret` / `updateConfigMap` for an event on
      `meta`, given the namespace listing (None when listing raised). */
  function SyncEvent(w: World, f: Faults, listing: Option<seq<string>>, meta: Meta): (World, Outcome)
  {
    if listing.None? then (w, Raised(ApiError))
    else if meta.namespace !in listing.value then (w, Raised(ValueError))
    else
      var (w1, source) := ReadStep(w, f, Key(meta.namespace, meta.name));
      if source.None? then (w1, Raised(ApiError))
      else match Sanitized(source.value)
        case Err(e) => (w1, Raised(e))
        case Ok(obj) =>
          var targets := TargetNamespaces(meta.annotations, RemoveFirst(listing.value, meta.namespace));
          var (w2, ok) := UpsertAll(w1, f, meta.name, obj, targets);
          (w2, if ok then Completed else Raised(ApiError))
  }

  /** The body both sync handlers share: list the namespaces, drop the source
      namespace, re-read and sanitise the source, resolve the targets, upsert. */
  method SyncObject(store: Store, listing: Option<seq<string>>, meta: Meta) returns (outcome: Outcome)
    modifies store
    ensures (store.world, outcome) == SyncEvent(old(store.world), store.faults, listing, meta)
  {
    if listing.None? {
      return Raised(ApiError);
    }
    var namespaces := new MutableList(listing.value);
    var present := namespaces.Remove(meta.namespace);
    if !present {
      return Raised(ValueError);
    }
    var source := store.Read(Key(meta.namespace, meta.name));
    if source.None? {
      return Raised(ApiError);
    }
    var sanitized := Sanitized(source.value);
    if sanitized.Err? {
      return Raised(sanitized.error);
    }
    var targets := ParseTargetNamespaces(meta.annotations, namespaces);
    var ok := UpsertTargets(store, meta.name, sanitized.value, targets.items);
    outcome := if ok then Completed else Raised(ApiError);
  }

  /** `update_secret`, run on the secrets store. */
  method UpdateSecret(secrets: Store, listing: Option<seq<string>>, meta: Meta) returns (outcome: Outcome)
    modifies secrets
    ensures (secrets.world, outcome) == SyncEvent(old(secrets.world), secrets.faults, listing, meta)
  {
    outcome := SyncObject(secrets, listing, meta);
  }

  /** `updateConfigMap`, run on the config-map store. */
  method UpdateConfigMap(configMaps: Store, listing: Option<seq<string>>, meta: Meta) returns (outcome: Outcome)
    modifies configMaps
    ensures (configMaps.world, outcome) == SyncEvent(old(configMaps.world), configMaps.faults, listing, meta)
  {
    outcome := SyncObject(configMaps, listing, meta);
  }

  /** In a cluster whose namespace names are distinct, a sync event never
      changes any object in the source namespace, nor in any namespace that
      is not a target. */
  lemma SyncSparesSource(w: World, f: Faults, listing: seq<string>, meta: Meta, k: Key)
    requires Distinct(listing)
    requires k.namespace == meta.namespace
             || k.namespace !in TargetNamespaces(meta.annotations, RemoveFirst(listing, meta.namespace))
    ensures var w' := SyncEvent(w, f, Some(listing), meta).0;
            && (k in w'.objects <==> k in w.objects)
            && (k in w.objects ==> w'.objects[k] == w.objects[k])
  {
    SyncTargetsSkipSource(meta.annotations, listing, meta.namespace);
    var targets := TargetNamespaces(meta.annotations, RemoveFirst(listing, meta.namespace));
    if meta.namespace in listing {
      var w1 := ReadStep(w, f, Key(meta.namespace, meta.name)).0;
      var source := ReadStep(w, f, Key(meta.namespace, meta.name)).1;
      if source.Some? && Sanitized(source.value).Ok? {
        UpsertAllFrame(w1, f, meta.name, Sanitized(source.value).value, targets, k);
      }
    }
  }

  /** A sync event that completes leaves in every target namespace a replica
      with the source's name and payload, and the source's annotations with
      their values, except the sync flag and the project id, which it lacks. */
  lemma SyncInstallsReplicas(w: World, f: Faults, listing: seq<string>, meta: Meta)
    requires Key(meta.namespace, meta.name) in w.objects
    requires w.objects[Key(meta.namespace, meta.name)].name == meta.name
    requires SyncEvent(w, f, Some(listing), meta).1 == Completed
    ensures var w' := SyncEvent(w, f, Some(listing), meta).0;
            var source := w.objects[Key(meta.namespace, meta.name)];
            forall t :: t in TargetNamespaces(meta.annotations, RemoveFirst(listing, meta.namespace)) ==>
              && Key(t, meta.name) in w'.objects
              && w'.objects[Key(t, meta.name)].data == source.data
              && SyncKey !in w'.objects[Key(t, meta.name)].annotations
              && ProjectIdKey !in w'.objects[Key(t, meta.name)].annotations
              && forall a :: a != SyncKey && a != ProjectIdKey ==>
                   && (a in w'.objects[Key(t, meta.name)].annotations <==> a in source.annotations)
                   && (a in source.annotations ==>
                         w'.objects[Key(t, meta.name)].annotations[a] == source.annotations[a])
  {
    var targets := TargetNamespaces(meta.annotations, RemoveFirst(listing, meta.namespace));
    var w1 := ReadStep(w, f, Key(meta.namespace, meta.name)).0;
    var source := w.objects[Key(meta.namespace, meta.name)];
    var obj := Sanitized(source).value;
    UpsertAllInstalls(w1, f, obj, targets);
  }

  /** The backfill filter: the annotations are present (an object without
      annotations has the empty map) and the sync flag is exactly "yes". A
      flagged secret is one whose first sanitising pop cannot raise. */
  predicate Flagged(annotations: map<string, string>)
    ensures Flagged(annotations) ==> |annotations| > 0 && SyncKey in annotations
    ensures forall source: Resource :: source.annotations == annotations && Flagged(annotations) ==>
              Sanitized(source) != Err(KeyError(SyncKey))
  {
    SyncKey in annotations && annotations[SyncKey] == "yes"
  }

  /** One listed secret during backfill: skipped unless flagged; otherwise
      sanitised (a KeyError escapes the handler) and upserted into the targets
      resolved from the candidate list [name] (a failing create is caught by
      the handler's outer `except`, which ends the scan). */
  function BackfillOne(w: World, f: Faults, secret: Resource, name: string): (World, Outcome)
  {
    if !Flagged(secret.annotations) then (w, Completed)
    else match Sanitized(secret)
      case Err(e) => (w, Raised(e))
      case Ok(obj) =>
        var (w1, ok) := UpsertAll(w, f, obj.name, obj, TargetNamespaces(obj.annotations, [name]));
        (w1, if ok then Completed else Caught(ApiError))
  }

  /** The backfill scan over the listed secrets, in order, up to the first one that does not complete. */
  function BackfillAll(w: World, f: Faults, secrets: seq<Resource>, name: string): (World, Outcome)
  {
    if secrets == [] then (w, Completed)
    else
      var (w1, r) := BackfillAll(w, f, secrets[..|secrets| - 1], name);
      if r != Completed then (w1, r) else BackfillOne(w1, f, secrets[|secrets| - 1], name)
  }

  /** The store after `newNamespace(name)`, given the cluster-wide secret
      listing (None when listing raised, which the handler catches). */
  function NamespaceCreated(w: World, f: Faults, listing: Option<seq<Resource>>, name: string): (World, Outcome)
  {
    if listing.None? then (w, Caught(ApiError)) else BackfillAll(w, f, listing.value, name)
  }

  /** `newNamespace`: replay every flagged secret into the new namespace. */
  method NewNamespace(secrets: Store, listing: Option<seq<Resource>>, name: string) returns (outcome: Outcome)
    modifies secrets
    ensures (secrets.world, outcome) == NamespaceCreated(old(secrets.world), secrets.faults, listing, name)
  {
    if listing.None? {
      return Caught(ApiError);
    }
    var items := listing.value;
    ghost var start := secrets.world;
    var i := 0;
    while i < |items|
      invariant 0 <= i <= |items|
      invariant (secrets.world, Completed) == BackfillAll(start, secrets.faults, items[..i], name)
    {
      assert items[..i + 1][..i] == items[..i];
      var secret := items[i];
      if Flagged(secret.annotations) {
        var sanitized := Sanitized(secret);
        if sanitized.Err? {
          BackfillAllStops(start, secrets.faults, items, name, i + 1);
          return Raised(sanitized.error);
        }
        var candidates := new MutableList([name]);
        var targets := ParseTargetNamespaces(sanitized.value.annotations, candidates);
        var ok := UpsertTargets(secrets, sanitized.value.name, sanitized.value, targets.items);
        if !ok {
          BackfillAllStops(start, secrets.faults, items, name, i + 1);
          return Caught(ApiError);
        }
      }
      i := i + 1;
    }
    assert items[..i] == items;
    return Completed;
  }

  /** Once a secret does not complete, the later secrets are not looked at. */
  lemma {:induction false} BackfillAllStops(w: World, f: Faults, secrets: seq<Resource>, name: string, j: nat)
    requires j <= |secrets|
    requires BackfillAll(w, f, secrets[..j], name).1 != Completed
    ensures BackfillAll(w, f, secrets, name) == BackfillAll(w, f, secrets[..j], name)
    decreases |secrets|
  {
    if j < |secrets| {
      var init := secrets[..|secrets| - 1];
      assert init[..j] == secrets[..j];
      BackfillAllStops(w, f, init, name, j);
    } else {
      assert secrets[..j] == secrets;
    }
  }

  /** A backfill that completes, over a listing whose flagged secrets have
      distinct names (unflagged replicas may repeat them), has sanitised every flagged secret, and has left in the new
      namespace a copy of each flagged secret whose include/exclude annotations
      admit it, carrying the sanitised annotations and the secret's payload. */
  lemma {:induction false} BackfillInstalls(w: World, f: Faults, secrets: seq<Resource>, name: string)
    requires BackfillAll(w, f, secrets, name).1 == Completed
    requires forall i, j :: 0 <= i < j < |secrets| && Flagged(secrets[i].annotations) && Flagged(secrets[j].annotations)
               ==> secrets[i].name != secrets[j].name
    ensures var w' := BackfillAll(w, f, secrets, name).0;
            forall i :: 0 <= i < |secrets| && Flagged(secrets[i].annotations) ==>
              && Sanitized(secrets[i]).Ok?
              && (name in TargetNamespaces(Sanitized(secrets[i]).value.annotations, [name]) ==>
                    && Key(name, secrets[i].name) in w'.objects
                    && w'.objects[Key(name, secrets[i].name)].annotations == Sanitized(secrets[i]).value.annotations
                    && w'.objects[Key(name, secrets[i].name)].data == secrets[i].data)
  {
    if secrets != [] {
      var init, last := secrets[..|secrets| - 1], secrets[|secrets| - 1];
      var (w1, r) := BackfillAll(w, f, init, name);
      BackfillInstalls(w, f, init, name);
      var w' := BackfillAll(w, f, secrets, name).0;
      if Flagged(last.annotations) {
        var obj := Sanitized(last).value;
        var targets := TargetNamespaces(obj.annotations, [name]);
        UpsertAllInstalls(w1, f, obj, targets);
        forall i | 0 <= i < |init| && Flagged(init[i].annotations)
          ensures Key(name, init[i].name) in w'.objects <==> Key(name, init[i].name) in w1.objects
          ensures Key(name, init[i].name) in w1.objects ==> w'.objects[Key(name, init[i].name)] == w1.objects[Key(name, init[i].name)]
        {
          UpsertAllFrame(w1, f, obj.name, obj, targets, Key(name, init[i].name));
        }
      }
      forall i | 0 <= i < |secrets| - 1
        ensures secrets[i] == init[i]
      {
      }
    }
  }

  /** Backfill touches no namespace other than the new one. */
  lemma {:induction false} BackfillOnlyNewNamespace(w: World, f: Faults, secrets: seq<Resource>, name: string, k: Key)
    requires k.namespace != name
    ensures var w' := BackfillAll(w, f, secrets, name).0;
            && (k in w'.objects <==> k in w.objects)
            && (k in w.objects ==> w'.objects[k] == w.objects[k])
  {
    if secrets != [] {
      var init, last := secrets[..|secrets| - 1], secrets[|secrets| - 1];
      BackfillOnlyNewNamespace(w, f, init, name, k);
      var (w1, r) := BackfillAll(w, f, init, name);
      if r == Completed && Flagged(last.annotations) && Sanitized(last).Ok? {
        var obj := Sanitized(last).value;
        BackfillTargetsOnlyNew(obj.annotations, name);
        UpsertAllFrame(w1, f, obj.name, obj, TargetNamespaces(obj.annotations, [name]), k);
      }
    }
  }
}
