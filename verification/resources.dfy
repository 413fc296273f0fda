/**
 * Secrets and config maps as the handlers see them, the errors a handler can
 * end with, and the sanitising step that turns a source object into the body
 * of a replica.
 */
module Resources {
  import opened Wrappers

  /** The annotation that opts an object into replication (value "yes"). */
  const SyncKey := "synator/sync"
  /** The project annotation the Rancher platform injects. */
  const ProjectIdKey := "field.cattle.io/projectId"

  /** A secret or config map: metadata plus the key/value payload. The resource
      version and uid are server-assigned tokens; None is Python's None. */
  datatype Resource = Resource(
    name: string,
    namespace: string,
    annotations: map<string, string>,
    data: map<string, string>,
    resourceVersion: Option<string>,
    uid: Option<string>)

  /** How a handler can fail: `dict.pop` of a missing key, `list.remove` or
      `int()` raising ValueError, or any ApiException from the control plane. */
  datatype Error = KeyError(key: string) | ValueError | ApiError

  /** The sanitising steps run once per source object before any copy is
      written: pop the sync flag, pop the project id (each pop raises KeyError
      when its key is absent), then clear the resource version and the uid. */
  function Sanitized(source: Resource): (r: Result<Resource, Error>)
    ensures r.Ok? <==> SyncKey in source.annotations && ProjectIdKey in source.annotations
    ensures SyncKey !in source.annotations ==> r == Err(KeyError(SyncKey))
    ensures SyncKey in source.annotations && ProjectIdKey !in source.annotations
            ==> r == Err(KeyError(ProjectIdKey))
    ensures r.Ok? ==>
              && SyncKey !in r.value.annotations && ProjectIdKey !in r.value.annotations
              && r.value.resourceVersion.None? && r.value.uid.None?
              && r.value.name == source.name && r.value.namespace == source.namespace
              && r.value.data == source.data
    ensures r.Ok? ==>
              forall k :: k != SyncKey && k != ProjectIdKey ==>
                && (k in r.value.annotations <==> k in source.annotations)
                && (k in source.annotations ==> r.value.annotations[k] == source.annotations[k])
  {
    if SyncKey !in source.annotations then Err(KeyError(SyncKey))
    else
      var popped := source.annotations - {SyncKey};
      if ProjectIdKey !in popped then Err(KeyError(ProjectIdKey))
      else Ok(source.(annotations := popped - {ProjectIdKey}, resourceVersion := None, uid := None))
  }
}
