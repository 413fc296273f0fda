/**
 * The control plane's object store for one kind (secrets or config maps), as
 * the handlers use it: read, patch and create by (namespace, name). Failures
 * are inputs: a read of a missing object and a patch of a missing object
 * raise not-found, a create over an existing object raises conflict, and the
 * fault sets name the keys at which a call raises some other ApiException.
 * Every call is recorded in a log, so that what was called, and in what order,
 * is part of the observable state.
 */
module ControlPlane {
  import opened Wrappers
  import opened Resources

  datatype Key = Key(namespace: string, name: string)

  datatype Call = ReadCall(key: Key) | PatchCall(key: Key) | CreateCall(key: Key)

  /** The store's contents and the calls made so far. */
  datatype World = World(objects: map<Key, Resource>, log: seq<Call>)

  /** Keys at which read, patch or create raise an ApiException of their own. */
  datatype Faults = Faults(read: set<Key>, patch: set<Key>, create: set<Key>)

  /** A patch writes the fields the body carries: annotations and payload. The
      body's cleared tokens are not sent, so the stored ones stay. */
  function Patched(current: Resource, body: Resource): Resource
  {
    current.(annotations := body.annotations, data := body.data)
  }

  /** `read_namespaced_*(name, ns)`: the stored object, or None when it raises. */
  function ReadStep(w: World, f: Faults, k: Key): (World, Option<Resource>)
  {
    (w.(log := w.log + [ReadCall(k)]),
     if k in w.objects && k !in f.read then Some(w.objects[k]) else None)
  }

  /** `patch_namespaced_*(name, ns, body)`: true when it does not raise. */
  function PatchStep(w: World, f: Faults, k: Key, body: Resource): (World, bool)
  {
    if k in w.objects && k !in f.patch
    then (World(w.objects[k := Patched(w.objects[k], body)], w.log + [PatchCall(k)]), true)
    else (w.(log := w.log + [PatchCall(k)]), false)
  }

  /** `create_namespaced_*(ns, body)`: true when it does not raise. */
  function CreateStep(w: World, f: Faults, k: Key, body: Resource): (World, bool)
  {
    if k !in w.objects && k !in f.create
    then (World(w.objects[k := body], w.log + [CreateCall(k)]), true)
    else (w.(log := w.log + [CreateCall(k)]), false)
  }

  /** The API client bound to one kind's store. */
  class Store {
    var world: World
    const faults: Faults

    constructor (world: World, faults: Faults)
      ensures this.world == world && this.faults == faults
    {
      this.world := world;
      this.faults := faults;
    }

    method Read(k: Key) returns (found: Option<Resource>)
      modifies this
      ensures (world, found) == ReadStep(old(world), faults, k)
      ensures found.Some? ==> k in old(world.objects) && found.value == old(world.objects)[k]
      ensures world.objects == old(world.objects)
    {
      var step := ReadStep(world, faults, k);
      world, found := step.0, step.1;
    }

    method Patch(k: Key, body: Resource) returns (ok: bool)
      modifies this
      ensures (world, ok) == PatchStep(old(world), faults, k, body)
      ensures ok <==> k in old(world.objects) && k !in faults.patch
    {
      var step := PatchStep(world, faults, k, body);
      world, ok := step.0, step.1;
    }

    method Create(k: Key, body: Resource) returns (ok: bool)
      modifies this
      ensures (world, ok) == CreateStep(old(world), faults, k, body)
      ensures ok <==> k !in old(world.objects) && k !in faults.create
    {
      var step := CreateStep(world, faults, k, body);
      world, ok := step.0, step.1;
    }
  }
}
