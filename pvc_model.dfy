/** The volume-claim decisions of internal/operator/pvc/pvc.go as functions on the abstract API
    state. Module PvcProperties proves what the code promises about them, and the methods of
    module Pvc perform the same steps against a ClaimStore and are proved equal to them. */
module PvcModel {
  import opened Common
  import opened Strings
  import opened KubeApi

  /** The fields of a storage specification (crv1.PgStorageSpec) the code reads. */
  datatype StorageSpec = StorageSpec(
    name: string,
    storageType: string,
    accessMode: string,
    size: string,
    storageClass: string,
    matchLabels: string,
    supplementalGroups: string)

  /** What provisioning one logical volume yields (operator.StorageResult). */
  datatype StorageResult = StorageResult(claimName: string, supplementalGroups: seq<int>)

  /** The zero StorageResult, which a skipped step leaves in place. */
  const ZeroResult := StorageResult("", [])

  /** The fields handed to the claim-manifest templates. */
  datatype TemplateFields = TemplateFields(
    name: string,
    accessMode: string,
    clusterName: string,
    size: string,
    storageClass: string,
    matchLabels: string)

  /** Collaborators whose definitions live outside the modelled files, as opaque functions:
      - supplementalGroups: spec.GetSupplementalGroups();
      - tablespacePVCName: operator.GetTablespacePVCName(prefix, tablespace);
      - matchLabelsTemplate: executing config.PVCMatchLabelsTemplate on a key and a value;
      - claimTemplate: executing config.PVCStorageClassTemplate (flag true) or config.PVCTemplate
        (flag false) on the template fields;
      - decodeClaim: json.Unmarshal of the rendered text into a claim object;
      - removeLabel: the label key config.LABEL_PGREMOVE. */
  datatype Operator = Operator(
    supplementalGroups: StorageSpec -> seq<int>,
    tablespacePVCName: (string, string) -> string,
    matchLabelsTemplate: (string, string) -> Result<string, string>,
    claimTemplate: (TemplateFields, bool) -> Result<string, string>,
    decodeClaim: string -> Result<Claim, string>,
    removeLabel: string)

  /** The parts of a cluster definition (crv1.Pgcluster) the code reads. */
  datatype Cluster = Cluster(name: string, walStorage: StorageSpec, tablespaceMounts: map<string, StorageSpec>)

  datatype Provisioned = Provisioned(state: ApiState, result: StorageResult, err: Option<Error>)

  datatype Named = Named(state: ApiState, claimName: string, err: Option<Error>)

  datatype Progress = Progress(state: ApiState, volumes: map<string, StorageResult>, err: Option<Error>)

  datatype Volumes = Volumes(
    state: ApiState,
    data: StorageResult,
    wal: StorageResult,
    tablespaces: map<string, StorageResult>,
    err: Option<Error>)

  datatype Probe = Probe(state: ApiState, present: bool)

  predicate IsNoOpType(storageType: string) { storageType == "" || storageType == "emptydir" }

  predicate IsCreateType(storageType: string) { storageType == "create" || storageType == "dynamic" }

  /** `getMatchLabels`: the rendered selector fragment, or "" when the template fails. */
  function GetMatchLabels(op: Operator, key: string, value: string): (fragment: string)
  {
    match op.matchLabelsTemplate(key, value)
    case Ok(doc) => doc
    case Err(_) => ""
  }

  /** The template fields before any selector is rendered into them. */
  function InitialFields(name: string, clusterName: string, spec: StorageSpec): (fields: TemplateFields)
  {
    TemplateFields(name, spec.accessMode, clusterName, spec.size, spec.storageClass, spec.matchLabels)
  }

  /** Execute a claim template and decode its output. */
  function Render(op: Operator, fields: TemplateFields, dynamic: bool): (r: Result<Claim, Error>)
    ensures r.Err? ==> r.error.TemplateFailure? || r.error.DecodeFailure?
  {
    match op.claimTemplate(fields, dynamic)
    case Err(reason) => Err(TemplateFailure(reason))
    case Ok(doc) =>
      match op.decodeClaim(doc)
      case Err(reason) => Err(DecodeFailure(reason))
      case Ok(claim) => Ok(claim)
  }

  /** The claim object `Create` would submit, or the error that stops it before any API call. */
  function Manifest(op: Operator, name: string, clusterName: string, spec: StorageSpec): (r: Result<Claim, Error>)
    ensures r.Err? ==> r.error.MalformedMatchLabels? || r.error.TemplateFailure? || r.error.DecodeFailure?
  {
    var fields := InitialFields(name, clusterName, spec);
    if spec.storageType == "dynamic" then Render(op, fields, true)
    else if spec.matchLabels == "" then Render(op, fields, false)
    else
      var parts := Split(spec.matchLabels, '=');
      if |parts| != 2 then Err(MalformedMatchLabels)
      else Render(op, fields.(matchLabels := GetMatchLabels(op, parts[0], parts[1])), false)
  }

  /** `Create`: build the manifest, then submit it. */
  function Create(op: Operator, st: ApiState, name: string, clusterName: string, spec: StorageSpec, namespace: string): (r: Written)
    ensures r.state.faults == st.faults
  {
    match Manifest(op, name, clusterName, spec)
    case Err(e) => Written(st, Some(e))
    case Ok(claim) => CreateClaim(st, namespace, claim)
  }

  /** The descriptor a storage specification calls for, whatever the API does. */
  function PlannedResult(op: Operator, spec: StorageSpec, pvcName: string): (planned: StorageResult)
  {
    var claimName :=
      if spec.storageType == "existing" then spec.name
      else if IsCreateType(spec.storageType) then pvcName
      else "";
    StorageResult(claimName, op.supplementalGroups(spec))
  }

  /** `CreateIfNotExists`. The descriptor depends on the specification and the name alone,
      never on the store or on a failure. */
  function CreateIfNotExists(op: Operator, st: ApiState, spec: StorageSpec, pvcName: string, clusterName: string, namespace: string): (r: Provisioned)
    ensures r.result == PlannedResult(op, spec, pvcName)
    ensures r.state.faults == st.faults
  {
    var result := StorageResult("", op.supplementalGroups(spec));
    if IsNoOpType(spec.storageType) then Provisioned(st, result, None)
    else if spec.storageType == "existing" then Provisioned(st, result.(claimName := spec.name), None)
    else if IsCreateType(spec.storageType) then
      var w := Create(op, st, pvcName, clusterName, spec, namespace);
      var result := result.(claimName := pvcName);
      if w.err.Some? && !w.err.value.AlreadyExists? then Provisioned(w.state, result, w.err)
      else Provisioned(w.state, result, None)
    else Provisioned(st, result, None)
  }

  /** `CreatePVC`. */
  function CreatePVC(op: Operator, st: ApiState, spec: StorageSpec, pvcName: string, clusterName: string, namespace: string): (r: Named)
    ensures r.state.faults == st.faults
  {
    if spec.storageType == "existing" then Named(st, spec.name, None)
    else if IsCreateType(spec.storageType) then
      var w := Create(op, st, pvcName, clusterName, spec, namespace);
      Named(w.state, pvcName, w.err)
    else Named(st, pvcName, None)
  }

  /** The order in which Go's `range` visits a map: each key once, in some order. */
  ghost predicate IsEnumeration(order: seq<string>, keys: set<string>)
  {
    && (forall i, j :: 0 <= i < j < |order| ==> order[i] != order[j])
    && (forall t :: t in order <==> t in keys)
  }

  predicate AllMounted(order: seq<string>, mounts: map<string, StorageSpec>)
  {
    forall i :: 0 <= i < |order| ==> order[i] in mounts
  }

  /** One iteration of the tablespace loop: skipped once an error is set. */
  function TablespaceStep(op: Operator, namespace: string, prefix: string, cluster: Cluster, p: Progress, tablespace: string): (next: Progress)
    requires tablespace in cluster.tablespaceMounts
  {
    if p.err.Some? then p
    else
      var r := CreateIfNotExists(op, p.state, cluster.tablespaceMounts[tablespace],
                                 op.tablespacePVCName(prefix, tablespace), cluster.name, namespace);
      Progress(r.state, p.volumes[tablespace := r.result], r.err)
  }

  /** The tablespace loop run over the keys in `order`, from `start`. */
  function Tablespaces(op: Operator, namespace: string, prefix: string, cluster: Cluster, start: Progress, order: seq<string>): (p: Progress)
    requires AllMounted(order, cluster.tablespaceMounts)
    decreases |order|
  {
    if order == [] then start
    else
      var last := |order| - 1;
      TablespaceStep(op, namespace, prefix, cluster, Tablespaces(op, namespace, prefix, cluster, start, order[..last]), order[last])
  }

  /** `CreateMissingPostgreSQLVolumes`, visiting the tablespaces in `order`. */
  function CreateMissingPostgreSQLVolumes(op: Operator, st: ApiState, cluster: Cluster, namespace: string,
                                          prefix: string, dataSpec: StorageSpec, order: seq<string>): (v: Volumes)
    requires IsEnumeration(order, cluster.tablespaceMounts.Keys)
  {
    var data := CreateIfNotExists(op, st, dataSpec, prefix, cluster.name, namespace);
    var wal :=
      if data.err.None? then CreateIfNotExists(op, data.state, cluster.walStorage, prefix + "-wal", cluster.name, namespace)
      else Provisioned(data.state, ZeroResult, data.err);
    var p := Tablespaces(op, namespace, prefix, cluster, Progress(wal.state, map[], wal.err), order);
    Volumes(p.state, data.result, wal.result, p.volumes, p.err)
  }

  /** The value of a label, "" when it is absent (Go's map lookup). */
  function LabelValue(labels: Labels, key: string): (value: string)
  {
    if key in labels then labels[key] else ""
  }

  /** `DeleteIfExists`. */
  function DeleteIfExists(op: Operator, st: ApiState, name: string, namespace: string): (r: Written)
    ensures r.state.faults == st.faults
  {
    var key := ClaimKey(namespace, name);
    var found := GetClaimIfExists(st, key);
    match found.labels
    case None => Written(found.state, found.err)
    case Some(labels) =>
      if LabelValue(labels, op.removeLabel) == "true" then DeleteClaim(found.state, key)
      else Written(found.state, found.err)
  }

  /** `Exists`. */
  function Exists(st: ApiState, name: string, namespace: string): (r: Probe)
  {
    var found := GetClaimIfExists(st, ClaimKey(namespace, name));
    Probe(found.state, found.labels.Some?)
  }
}
