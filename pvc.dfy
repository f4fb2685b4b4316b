/** The functions of internal/operator/pvc/pvc.go as methods that call a ClaimStore step by
    step, each proved to leave the store and return exactly what the matching function of
    PvcModel describes. */
module Pvc {
  import opened Common
  import opened Strings
  import opened KubeApi
  import opened PvcModel

  /** `Create`: fill the template fields, validate and render the selector on the static path,
      render the manifest and submit it. */
  method Create(store: ClaimStore, op: Operator, name: string, clusterName: string, spec: StorageSpec, namespace: string)
    returns (err: Option<Error>)
    modifies store
    ensures Written(store.State(), err) == PvcModel.Create(op, old(store.State()), name, clusterName, spec, namespace)
  {
    var pvcFields := TemplateFields(name, spec.accessMode, clusterName, spec.size, spec.storageClass, spec.matchLabels);
    var dynamic := spec.storageType == "dynamic";
    if !dynamic && spec.matchLabels != "" {
      var arr := Split(spec.matchLabels, '=');
      if |arr| != 2 {
        return Some(MalformedMatchLabels);
      }
      pvcFields := pvcFields.(matchLabels := GetMatchLabels(op, arr[0], arr[1]));
    }
    var doc := op.claimTemplate(pvcFields, dynamic);
    if doc.Err? {
      return Some(TemplateFailure(doc.error));
    }
    var newPVC := op.decodeClaim(doc.value);
    if newPVC.Err? {
      return Some(DecodeFailure(newPVC.error));
    }
    err := store.Create(namespace, newPVC.value);
  }

  /** `CreateIfNotExists`. */
  method CreateIfNotExists(store: ClaimStore, op: Operator, spec: StorageSpec, pvcName: string, clusterName: string, namespace: string)
    returns (result: StorageResult, err: Option<Error>)
    modifies store
    ensures Provisioned(store.State(), result, err) == PvcModel.CreateIfNotExists(op, old(store.State()), spec, pvcName, clusterName, namespace)
  {
    result := StorageResult("", op.supplementalGroups(spec));
    err := None;
    if spec.storageType == "" || spec.storageType == "emptydir" {
      // no-op
    } else if spec.storageType == "existing" {
      result := result.(claimName := spec.name);
    } else if spec.storageType == "create" || spec.storageType == "dynamic" {
      result := result.(claimName := pvcName);
      var createErr := Create(store, op, pvcName, clusterName, spec, namespace);
      if createErr.Some? && !createErr.value.AlreadyExists? {
        err := createErr;
      }
    }
  }

  /** `CreatePVC`. */
  method CreatePVC(store: ClaimStore, op: Operator, spec: StorageSpec, pvcName: string, clusterName: string, namespace: string)
    returns (claimName: string, err: Option<Error>)
    modifies store
    ensures Named(store.State(), claimName, err) == PvcModel.CreatePVC(op, old(store.State()), spec, pvcName, clusterName, namespace)
  {
    claimName, err := pvcName, None;
    if spec.storageType == "existing" {
      claimName := spec.name;
    } else if spec.storageType == "create" || spec.storageType == "dynamic" {
      err := Create(store, op, pvcName, clusterName, spec, namespace);
    }
  }

  /** `CreateMissingPostgreSQLVolumes`: data, then WAL, then the tablespaces in the order the map
      is ranged over, each tried only while no error is set. */
  method CreateMissingPostgreSQLVolumes(store: ClaimStore, op: Operator, cluster: Cluster, namespace: string,
                                        pvcNamePrefix: string, dataStorageSpec: StorageSpec, order: seq<string>)
    returns (dataVolume: StorageResult, walVolume: StorageResult, tablespaceVolumes: map<string, StorageResult>, err: Option<Error>)
    requires IsEnumeration(order, cluster.tablespaceMounts.Keys)
    modifies store
    ensures Volumes(store.State(), dataVolume, walVolume, tablespaceVolumes, err) ==
      PvcModel.CreateMissingPostgreSQLVolumes(op, old(store.State()), cluster, namespace, pvcNamePrefix, dataStorageSpec, order)
  {
    dataVolume, err := CreateIfNotExists(store, op, dataStorageSpec, pvcNamePrefix, cluster.name, namespace);
    walVolume := ZeroResult;
    if err.None? {
      walVolume, err := CreateIfNotExists(store, op, cluster.walStorage, pvcNamePrefix + "-wal", cluster.name, namespace);
    }

    tablespaceVolumes := map[];
    ghost var start := Progress(store.State(), map[], err);
    for i := 0 to |order|
      invariant Progress(store.State(), tablespaceVolumes, err) ==
        Tablespaces(op, namespace, pvcNamePrefix, cluster, start, order[..i])
    {
      assert order[..i + 1][..i] == order[..i];
      if err.None? {
        var tablespaceName := order[i];
        var tablespacePVCName := op.tablespacePVCName(pvcNamePrefix, tablespaceName);
        var volume;
        volume, err := CreateIfNotExists(store, op, cluster.tablespaceMounts[tablespaceName], tablespacePVCName, cluster.name, namespace);
        tablespaceVolumes := tablespaceVolumes[tablespaceName := volume];
      }
    }
    assert order[..|order|] == order;
  }

  /** `DeleteIfExists`. */
  method DeleteIfExists(store: ClaimStore, op: Operator, name: string, namespace: string) returns (err: Option<Error>)
    modifies store
    ensures Written(store.State(), err) == PvcModel.DeleteIfExists(op, old(store.State()), name, namespace)
  {
    var pvc;
    pvc, err := store.GetIfExists(namespace, name);
    if pvc.None? {
      // nothing to delete; return the lookup's error, if any
      return;
    }
    if LabelValue(pvc.value, op.removeLabel) == "true" {
      err := store.Delete(namespace, name);
    }
  }

  /** `Exists`. */
  method Exists(store: ClaimStore, name: string, namespace: string) returns (present: bool)
    modifies store
    ensures Probe(store.State(), present) == PvcModel.Exists(old(store.State()), name, namespace)
  {
    var pvc, _ := store.GetIfExists(namespace, name);
    present := pvc.Some?;
  }
}
