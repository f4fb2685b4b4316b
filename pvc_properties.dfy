/** What internal/operator/pvc/pvc.go promises, proved about the functions of PvcModel. */
module PvcProperties {
  import opened Common
  import opened Strings
  import opened KubeApi
  import opened PvcModel

  // ---------------------------------------------------------------- match labels

  /** The selector check rejects a static specification exactly when its labels are non-empty
      and do not hold exactly one '='; a dynamic specification is never rejected by it. */
  lemma MatchLabelsChecked(op: Operator, name: string, clusterName: string, spec: StorageSpec)
    ensures Manifest(op, name, clusterName, spec) == Err(MalformedMatchLabels) <==>
      spec.storageType != "dynamic" && spec.matchLabels != "" && multiset(spec.matchLabels)['='] != 1
  {
    SplitCount(spec.matchLabels, '=');
  }

  /** A rejected selector makes `Create` return the error with no API call at all. */
  lemma MalformedMatchLabelsCallsNothing(op: Operator, st: ApiState, name: string, clusterName: string, spec: StorageSpec, namespace: string)
    requires spec.storageType != "dynamic" && spec.matchLabels != "" && multiset(spec.matchLabels)['='] != 1
    ensures Create(op, st, name, clusterName, spec, namespace) == Written(st, Some(MalformedMatchLabels))
  {
    MatchLabelsChecked(op, name, clusterName, spec);
  }

  /** "onlykey" has no '=' and is rejected before any API call. */
  lemma OnlyKeyRejected(op: Operator, st: ApiState, name: string, clusterName: string, spec: StorageSpec, namespace: string)
    requires spec.storageType == "create" && spec.matchLabels == "onlykey"
    ensures Create(op, st, name, clusterName, spec, namespace) == Written(st, Some(MalformedMatchLabels))
  {
    SplitWithoutSeparator("onlykey", '=');
  }

  /** On the static path, labels `key=value` (neither side holding '=') are rendered into the
      selector from exactly that key and value; an empty side, as in "k=", is accepted. */
  lemma StaticSelector(op: Operator, name: string, clusterName: string, spec: StorageSpec, key: string, value: string)
    requires spec.storageType != "dynamic"
    requires spec.matchLabels == key + "=" + value && '=' !in key && '=' !in value
    ensures Manifest(op, name, clusterName, spec) ==
      Render(op, InitialFields(name, clusterName, spec).(matchLabels := GetMatchLabels(op, key, value)), false)
  {
    SplitAround(key, value, '=');
  }

  /** Every accepted non-empty static selector has that shape. */
  lemma AcceptedSelectorShape(spec: StorageSpec)
    requires spec.matchLabels != "" && |Split(spec.matchLabels, '=')| == 2
    ensures exists key, value :: spec.matchLabels == key + "=" + value && '=' !in key && '=' !in value
  {
    SplitPair(spec.matchLabels, '=');
    var parts := Split(spec.matchLabels, '=');
    assert spec.matchLabels == parts[0] + "=" + parts[1];
  }

  /** "k=" passes the check and renders the selector for key "k" and an empty value. */
  lemma EmptyValueAccepted(op: Operator, name: string, clusterName: string, spec: StorageSpec)
    requires spec.storageType == "create" && spec.matchLabels == "k="
    ensures Manifest(op, name, clusterName, spec) ==
      Render(op, InitialFields(name, clusterName, spec).(matchLabels := GetMatchLabels(op, "k", "")), false)
  {
    StaticSelector(op, name, clusterName, spec, "k", "");
  }

  /** A selector template that fails is swallowed: a well-formed `key=value` then yields the same
      claim manifest, or the same error, as a specification with no match labels at all. */
  lemma SelectorFailureMeansNoLabels(op: Operator, name: string, clusterName: string, spec: StorageSpec, key: string, value: string)
    requires spec.storageType != "dynamic"
    requires spec.matchLabels == key + "=" + value && '=' !in key && '=' !in value
    requires op.matchLabelsTemplate(key, value).Err?
    ensures Manifest(op, name, clusterName, spec) == Manifest(op, name, clusterName, spec.(matchLabels := ""))
  {
    SplitAround(key, value, '=');
  }

  /** On the dynamic path the labels are handed to the template as they are, unchecked. */
  lemma DynamicIgnoresMatchLabels(op: Operator, name: string, clusterName: string, spec: StorageSpec)
    requires spec.storageType == "dynamic"
    ensures Manifest(op, name, clusterName, spec) == Render(op, InitialFields(name, clusterName, spec), true)
    ensures Manifest(op, name, clusterName, spec).Err? ==> Manifest(op, name, clusterName, spec).error != MalformedMatchLabels
  {
  }

  // ---------------------------------------------------------------- one volume

  /** For "" and "emptydir" nothing is created and the API is not called. */
  lemma NoOpStorage(op: Operator, st: ApiState, spec: StorageSpec, pvcName: string, clusterName: string, namespace: string)
    requires IsNoOpType(spec.storageType)
    ensures CreateIfNotExists(op, st, spec, pvcName, clusterName, namespace) ==
      Provisioned(st, StorageResult("", op.supplementalGroups(spec)), None)
  {
  }

  /** "existing" binds to the specification's own claim name without calling the API. */
  lemma ExistingBindsByName(op: Operator, st: ApiState, spec: StorageSpec, pvcName: string, clusterName: string, namespace: string)
    requires spec.storageType == "existing"
    ensures CreateIfNotExists(op, st, spec, pvcName, clusterName, namespace) ==
      Provisioned(st, StorageResult(spec.name, op.supplementalGroups(spec)), None)
  {
  }

  /** "create" and "dynamic" name the result `pvcName`, issue at most one API call (a create,
      made exactly when the manifest could be built), succeed exactly when the create
      succeeded or found the name taken, and after a success add that claim when its name
      was free and change no other claim. */
  lemma CreateTypeAttemptsOnce(op: Operator, st: ApiState, spec: StorageSpec, pvcName: string, clusterName: string, namespace: string)
    requires IsCreateType(spec.storageType)
    ensures var r := CreateIfNotExists(op, st, spec, pvcName, clusterName, namespace);
      var m := Manifest(op, pvcName, clusterName, spec);
      && r.result.claimName == pvcName
      && r.result.supplementalGroups == op.supplementalGroups(spec)
      && r.state.calls == st.calls + (if m.Ok? then [CreateCall(namespace, m.value)] else [])
      && (m.Err? ==> r.state == st && r.err == Some(m.error))
      && (m.Ok? ==> (r.err.None? <==> st.faults.create(st.calls, namespace, m.value).None?))
      && (m.Ok? && r.err.None? ==> ClaimKey(namespace, m.value.name) in r.state.claims)
      && (r.err.None? && m.Ok? ==>
            var key := ClaimKey(namespace, m.value.name);
            r.state.claims == if key in st.claims then st.claims else st.claims[key := m.value.labels])
      && (r.err.Some? ==> r.state.claims == st.claims && !r.err.value.AlreadyExists?)
  {
  }

  /** Provisioning twice against the store the first call left returns the same descriptor and
      leaves the claims as they were: "already exists" is absorbed, so the second call fails only
      when the API faults its create, with that fault's error. */
  lemma CreateIfNotExistsIdempotent(op: Operator, st: ApiState, spec: StorageSpec, pvcName: string, clusterName: string, namespace: string)
    ensures var first := CreateIfNotExists(op, st, spec, pvcName, clusterName, namespace);
      var second := CreateIfNotExists(op, first.state, spec, pvcName, clusterName, namespace);
      var m := Manifest(op, pvcName, clusterName, spec);
      first.err.None? ==>
        && second.result == first.result
        && second.state.claims == first.state.claims
        && second.err == (if IsCreateType(spec.storageType) && m.Ok?
                          then FaultError(st.faults.create(first.state.calls, namespace, m.value))
                          else None)
  {
    var first := CreateIfNotExists(op, st, spec, pvcName, clusterName, namespace);
    if IsCreateType(spec.storageType) && first.err.None? {
      CreateTypeAttemptsOnce(op, st, spec, pvcName, clusterName, namespace);
      CreateTypeAttemptsOnce(op, first.state, spec, pvcName, clusterName, namespace);
    }
  }

  /** `CreatePVC` differs from `CreateIfNotExists` only in what it returns: the input name for
      "" and "emptydir", and every create error unabsorbed, "already exists" included. */
  lemma CreatePVCAgainstCreateIfNotExists(op: Operator, st: ApiState, spec: StorageSpec, pvcName: string, clusterName: string, namespace: string)
    ensures var named := CreatePVC(op, st, spec, pvcName, clusterName, namespace);
      var r := CreateIfNotExists(op, st, spec, pvcName, clusterName, namespace);
      && named.state == r.state
      && named.claimName == (if spec.storageType == "existing" then spec.name else pvcName)
      && (IsCreateType(spec.storageType) ==> named.claimName == r.result.claimName)
      && (IsCreateType(spec.storageType) ==> named.err == Create(op, st, pvcName, clusterName, spec, namespace).err)
      && r.err == (if named.err == Some(AlreadyExists) then None else named.err)
      && (!IsCreateType(spec.storageType) ==> named.err.None? && named.state == st)
  {
  }

  // ---------------------------------------------------------------- the tablespace loop

  /** An error already set skips the whole loop: no call, no entry. */
  lemma {:induction false} TablespacesSkippedAfterError(op: Operator, namespace: string, prefix: string, cluster: Cluster, start: Progress, order: seq<string>)
    requires AllMounted(order, cluster.tablespaceMounts) && start.err.Some?
    ensures Tablespaces(op, namespace, prefix, cluster, start, order) == start
    decreases |order|
  {
    if order != [] {
      TablespacesSkippedAfterError(op, namespace, prefix, cluster, start, order[..|order| - 1]);
    }
  }

  /** Once some prefix of the order has failed, the rest of the loop changes nothing: later
      tablespaces get no call and no entry, and the first error is the one returned. */
  lemma {:induction false} TablespacesStopAtFirstError(op: Operator, namespace: string, prefix: string, cluster: Cluster, start: Progress, order: seq<string>, k: nat)
    requires AllMounted(order, cluster.tablespaceMounts) && k <= |order|
    requires Tablespaces(op, namespace, prefix, cluster, start, order[..k]).err.Some?
    ensures Tablespaces(op, namespace, prefix, cluster, start, order) == Tablespaces(op, namespace, prefix, cluster, start, order[..k])
    decreases |order|
  {
    if k < |order| {
      var init := order[..|order| - 1];
      assert init[..k] == order[..k];
      TablespacesStopAtFirstError(op, namespace, prefix, cluster, start, init, k);
    } else {
      assert order[..k] == order;
    }
  }

  /** Every entry of the map belongs to a visited tablespace and holds the descriptor its
      specification calls for, whether its step failed or not. */
  lemma {:induction false} TablespacesEntries(op: Operator, namespace: string, prefix: string, cluster: Cluster, start: Progress, order: seq<string>)
    requires AllMounted(order, cluster.tablespaceMounts) && start.volumes == map[]
    ensures var p := Tablespaces(op, namespace, prefix, cluster, start, order);
      && (forall t :: t in p.volumes ==> t in order && t in cluster.tablespaceMounts)
      && (forall t :: t in p.volumes ==>
            p.volumes[t] == PlannedResult(op, cluster.tablespaceMounts[t], op.tablespacePVCName(prefix, t)))
    decreases |order|
  {
    if order != [] {
      var init := order[..|order| - 1];
      TablespacesEntries(op, namespace, prefix, cluster, start, init);
      forall t | t in init ensures t in order {
        var i :| 0 <= i < |init| && init[i] == t;
        assert order[i] == t;
      }
    }
  }

  /** Without an error every visited tablespace has an entry. */
  lemma {:induction false} TablespacesVisited(op: Operator, namespace: string, prefix: string, cluster: Cluster, start: Progress, order: seq<string>)
    requires AllMounted(order, cluster.tablespaceMounts)
    ensures var p := Tablespaces(op, namespace, prefix, cluster, start, order);
      p.err.None? ==> forall i :: 0 <= i < |order| ==> order[i] in p.volumes
    decreases |order|
  {
    if order != [] {
      var init := order[..|order| - 1];
      var q := Tablespaces(op, namespace, prefix, cluster, start, init);
      TablespacesVisited(op, namespace, prefix, cluster, start, init);
      if q.err.None? {
        assert forall i :: 0 <= i < |init| ==> init[i] == order[i];
      }
    }
  }

  /** A loop without error gives every tablespace its descriptor: the map is the same for
      every iteration order. */
  lemma TablespacesSucceed(op: Operator, namespace: string, prefix: string, cluster: Cluster, start: Progress, order: seq<string>)
    requires IsEnumeration(order, cluster.tablespaceMounts.Keys) && start.volumes == map[]
    ensures var p := Tablespaces(op, namespace, prefix, cluster, start, order);
      p.err.None? ==>
        p.volumes == map t | t in cluster.tablespaceMounts :: PlannedResult(op, cluster.tablespaceMounts[t], op.tablespacePVCName(prefix, t))
  {
    TablespacesEntries(op, namespace, prefix, cluster, start, order);
    TablespacesVisited(op, namespace, prefix, cluster, start, order);
  }

  /** The loop's error came from tablespace order[n-1]: the first n - 1 steps were clean, the
      n-th failed, and the entries are exactly those of the first n tablespaces. */
  ghost predicate FailedAt(op: Operator, namespace: string, prefix: string, cluster: Cluster, start: Progress, order: seq<string>, n: int)
    requires AllMounted(order, cluster.tablespaceMounts)
  {
    && 0 < n <= |order|
    && Tablespaces(op, namespace, prefix, cluster, start, order[..n - 1]).err.None?
    && Tablespaces(op, namespace, prefix, cluster, start, order[..n]) == Tablespaces(op, namespace, prefix, cluster, start, order)
    && (forall t :: t in Tablespaces(op, namespace, prefix, cluster, start, order).volumes <==> t in order[..n])
  }

  /** A failure in the last step, after a clean prefix, is a failure at |order|. */
  lemma FailedInLastStep(op: Operator, namespace: string, prefix: string, cluster: Cluster, start: Progress, order: seq<string>)
    requires AllMounted(order, cluster.tablespaceMounts) && start.volumes == map[] && order != []
    requires Tablespaces(op, namespace, prefix, cluster, start, order[..|order| - 1]).err.None?
    ensures FailedAt(op, namespace, prefix, cluster, start, order, |order|)
  {
    var last := |order| - 1;
    var init := order[..last];
    var p := Tablespaces(op, namespace, prefix, cluster, start, order);
    TablespacesVisited(op, namespace, prefix, cluster, start, init);
    TablespacesEntries(op, namespace, prefix, cluster, start, order);
    forall t | t in order ensures t in p.volumes {
      var i :| 0 <= i < |order| && order[i] == t;
      if i < last { assert init[i] == t; }
    }
    assert order[..|order|] == order;
  }

  /** A failure inside a prefix that already failed is a failure of the whole order. */
  lemma FailedInPrefix(op: Operator, namespace: string, prefix: string, cluster: Cluster, start: Progress, order: seq<string>, n: int)
    requires AllMounted(order, cluster.tablespaceMounts) && order != []
    requires Tablespaces(op, namespace, prefix, cluster, start, order[..|order| - 1]).err.Some?
    requires FailedAt(op, namespace, prefix, cluster, start, order[..|order| - 1], n)
    ensures FailedAt(op, namespace, prefix, cluster, start, order, n)
  {
    var init := order[..|order| - 1];
    assert init[..n - 1] == order[..n - 1];
    assert init[..n] == order[..n];
  }

  /** When the loop fails, it failed at some tablespace after a clean prefix: the returned
      error and state are that step's, the failing tablespace has an entry, and so has every
      tablespace visited before it. */
  lemma {:induction false} TablespacesFirstError(op: Operator, namespace: string, prefix: string, cluster: Cluster, start: Progress, order: seq<string>)
    requires AllMounted(order, cluster.tablespaceMounts) && start.err.None? && start.volumes == map[]
    ensures Tablespaces(op, namespace, prefix, cluster, start, order).err.Some? ==>
      exists n :: FailedAt(op, namespace, prefix, cluster, start, order, n)
    decreases |order|
  {
    if Tablespaces(op, namespace, prefix, cluster, start, order).err.Some? {
      var init := order[..|order| - 1];
      if Tablespaces(op, namespace, prefix, cluster, start, init).err.Some? {
        TablespacesFirstError(op, namespace, prefix, cluster, start, init);
        var n :| FailedAt(op, namespace, prefix, cluster, start, init, n);
        FailedInPrefix(op, namespace, prefix, cluster, start, order, n);
      } else {
        FailedInLastStep(op, namespace, prefix, cluster, start, order);
      }
    }
  }

  // ---------------------------------------------------------------- the whole cluster

  /** A failing data step skips the WAL step and every tablespace: no further API call, a zero
      WAL descriptor, an empty tablespace map and the data step's error. */
  lemma DataFailureSkipsRest(op: Operator, st: ApiState, cluster: Cluster, namespace: string, prefix: string, dataSpec: StorageSpec, order: seq<string>)
    requires IsEnumeration(order, cluster.tablespaceMounts.Keys)
    ensures var data := CreateIfNotExists(op, st, dataSpec, prefix, cluster.name, namespace);
      data.err.Some? ==>
        CreateMissingPostgreSQLVolumes(op, st, cluster, namespace, prefix, dataSpec, order) ==
          Volumes(data.state, data.result, ZeroResult, map[], data.err)
  {
    var data := CreateIfNotExists(op, st, dataSpec, prefix, cluster.name, namespace);
    if data.err.Some? {
      TablespacesSkippedAfterError(op, namespace, prefix, cluster, Progress(data.state, map[], data.err), order);
    }
  }

  /** After a clean data step the WAL volume is provisioned under `prefix + "-wal"`; if that
      fails, no tablespace is attempted. */
  lemma WalAfterData(op: Operator, st: ApiState, cluster: Cluster, namespace: string, prefix: string, dataSpec: StorageSpec, order: seq<string>)
    requires IsEnumeration(order, cluster.tablespaceMounts.Keys)
    ensures var data := CreateIfNotExists(op, st, dataSpec, prefix, cluster.name, namespace);
      var wal := CreateIfNotExists(op, data.state, cluster.walStorage, prefix + "-wal", cluster.name, namespace);
      var v := CreateMissingPostgreSQLVolumes(op, st, cluster, namespace, prefix, dataSpec, order);
      data.err.None? ==>
        && v.data == data.result
        && v.wal == PlannedResult(op, cluster.walStorage, prefix + "-wal")
        && (wal.err.Some? ==> v == Volumes(wal.state, data.result, wal.result, map[], wal.err))
  {
    var data := CreateIfNotExists(op, st, dataSpec, prefix, cluster.name, namespace);
    var wal := CreateIfNotExists(op, data.state, cluster.walStorage, prefix + "-wal", cluster.name, namespace);
    if data.err.None? && wal.err.Some? {
      TablespacesSkippedAfterError(op, namespace, prefix, cluster, Progress(wal.state, map[], wal.err), order);
    }
  }

  /** A reconciliation pass without error yields every descriptor the specifications call for,
      independent of the tablespace order. */
  lemma VolumesComplete(op: Operator, st: ApiState, cluster: Cluster, namespace: string, prefix: string, dataSpec: StorageSpec, order: seq<string>)
    requires IsEnumeration(order, cluster.tablespaceMounts.Keys)
    ensures var v := CreateMissingPostgreSQLVolumes(op, st, cluster, namespace, prefix, dataSpec, order);
      v.err.None? ==>
        && v.data == PlannedResult(op, dataSpec, prefix)
        && v.wal == PlannedResult(op, cluster.walStorage, prefix + "-wal")
        && v.tablespaces == map t | t in cluster.tablespaceMounts :: PlannedResult(op, cluster.tablespaceMounts[t], op.tablespacePVCName(prefix, t))
  {
    var data := CreateIfNotExists(op, st, dataSpec, prefix, cluster.name, namespace);
    DataFailureSkipsRest(op, st, cluster, namespace, prefix, dataSpec, order);
    WalAfterData(op, st, cluster, namespace, prefix, dataSpec, order);
    if data.err.None? {
      var wal := CreateIfNotExists(op, data.state, cluster.walStorage, prefix + "-wal", cluster.name, namespace);
      TablespacesSucceed(op, namespace, prefix, cluster, Progress(wal.state, map[], wal.err), order);
    }
  }

  // ---------------------------------------------------------------- delete and exists

  /** `DeleteIfExists` looks the claim up once and deletes it exactly when the lookup found it
      with the removal label set to "true"; otherwise it returns the lookup's error (nil for a
      missing claim) and leaves the claims alone. Any error, a faulted delete included, leaves
      the claims as they were. */
  lemma DeleteOnlyWhenMarked(op: Operator, st: ApiState, name: string, namespace: string)
    ensures var key := ClaimKey(namespace, name);
      var r := DeleteIfExists(op, st, name, namespace);
      var marked := st.faults.lookup(st.calls, key).None? && key in st.claims && LabelValue(st.claims[key], op.removeLabel) == "true";
      && r.state.calls == st.calls + [GetCall(key)] + (if marked then [DeleteCall(key)] else [])
      && (marked ==> r.err == FaultError(st.faults.delete(st.calls + [GetCall(key)], key)))
      && (marked && r.err.None? ==> r.state.claims == st.claims - {key})
      && (r.err.Some? ==> r.state.claims == st.claims)
      && (!marked ==> r.state.claims == st.claims)
      && (!marked ==> r.err == FaultError(st.faults.lookup(st.calls, key)))
  {
  }

  /** `Exists` is true exactly when the lookup returns an object; lookup errors read as false. */
  lemma ExistsIffFound(st: ApiState, name: string, namespace: string)
    ensures var key := ClaimKey(namespace, name);
      var r := Exists(st, name, namespace);
      && (r.present <==> st.faults.lookup(st.calls, key).None? && key in st.claims)
      && r.state == st.(calls := st.calls + [GetCall(key)])
  {
  }
}
