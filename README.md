# Volume-claim provisioning and pgBackRest command composition, modelled in Dafny

This project models two pieces of decision logic of the PostgreSQL operator.

The first is the volume-claim code of `internal/operator/pvc/pvc.go`. It turns a storage
specification into zero or one persistent-volume claims. For `""`/`emptydir` it does nothing.
For `existing` it binds by name. For `create`/`dynamic` it renders a manifest and creates the
claim, and it treats "already exists" as success. For a cluster it provisions the data volume,
then the WAL volume, then every tablespace. It stops at the first error and rolls nothing
back. It deletes a claim only when the claim's removal label is `"true"`.

The second is the command composition of `pgo-backrest/pgo-backrest.go`. It checks the
required environment settings and maps a task command to a `pgbackrest` command line. It then
adds the S3 options and hands the space-joined line to `bash` in the `database` container.

The Kubernetes API is replaced by an abstract claim store (`KubeApi`). The store is a map
from (namespace, name) to a claim's labels, plus a log of every API call issued. It offers
three operations:
- create: fails with `AlreadyExists` when the name is taken;
- get-if-exists: a missing claim gives no object and no error;
- delete.

An error oracle (`Faults`) decides, per call, whether the API fails. It sees the request and
the log of every call issued before it, so the same request can fail once and succeed on a
later call, as a transient API error does. Every property below holds for every oracle.

Modules:
- `Common`: Option, Result and the error kinds.
- `Strings`: Go's `strings.Split` on one character and `strings.Join`, with their laws.
- `KubeApi`: the store as pure functions on `ApiState`, and the class `ClaimStore`, whose
  methods change the claims in place and are proved equal to those functions.
- `PvcModel`: pvc.go as functions on the store state. Each function returns the new state,
  including the call log, together with the result.
- `PvcProperties`: what pvc.go promises, proved about `PvcModel`.
- `Pvc`: pvc.go as methods that call a `ClaimStore` step by step. This includes the
  tablespace loop that fills the result map in place. Each method is proved to leave the
  store and return exactly what the matching `PvcModel` function says. So every
  `PvcProperties` lemma applies to the methods too.
- `PgoBackrest`: the command composition. It is a pure `Dispatch` plus a method `Run` that
  grows the command line by appends, proved equal to `Dispatch`, and lemmas about it.

Where the code and the design description of the system disagree, the model follows the code:
- The selector check only counts the pieces of `strings.Split(labels, "=")`. So `"k="` and
  `"="` are accepted, although the design asks for two non-empty tokens.
- The claim name of an `existing` or `create` result is whatever `spec.Name` or `pvcName` is,
  possibly empty. The design says it is non-empty for those types.
- The tablespaces are visited in Go's unspecified map order. The design asks for a fixed
  order, so every tablespace property is proved for every order.
- When the selector template fails, `getMatchLabels` silently yields `""` and the model does
  the same. The claim manifest is then exactly the one for a specification with no match
  labels (`PvcProperties.SelectorFailureMeansNoLabels`).
- The design expects one tablespace entry per declared mount, a skipped step's entry left at
  the zero result. The code only assigns an entry in an iteration it does not skip. So after
  a failure the map holds the tablespaces visited up to and including the failing one, and
  the failing one carries its filled-in descriptor (`PvcProperties.TablespacesFirstError`,
  `PvcProperties.TablespacesEntries`).

## Model

| member | source | states |
|---|---|---|
| Strings.SplitPair | internal/operator/pvc/pvc.go:156-157 | `Split(s, '=')` has exactly two pieces iff `s` holds exactly one `=`. The pieces are then the text before and after it, neither holding `=`. |
| Strings.JoinSplit | internal/operator/pvc/pvc.go:156 | Joining the pieces of a split with the separator gives back the original string. |
| Strings.SplitAround | internal/operator/pvc/pvc.go:156-161 | `key + "=" + value`, with no `=` in either part, splits back into exactly `[key, value]`. |
| KubeApi.ClaimStore.Create | internal/operator/pvc/pvc.go:182-183 | Logs one create call. Fails with the injected fault, or with AlreadyExists when the name is taken. Otherwise adds the claim and nothing else. |
| KubeApi.ClaimStore.GetIfExists | internal/operator/pvc/pvc.go:188 | Logs one lookup. Returns the claim's labels when it exists and the lookup does not fail. A missing claim gives no object and no error. |
| KubeApi.ClaimStore.Delete | internal/operator/pvc/pvc.go:198 | Logs one delete call. Removes the claim unless the call fails. |
| PvcProperties.MatchLabelsChecked | internal/operator/pvc/pvc.go:147-163 | The manifest is refused with MalformedMatchLabels exactly when the type is not `dynamic`, the labels are non-empty, and they do not hold exactly one `=`. The dynamic path never checks them. |
| PvcProperties.MalformedMatchLabelsCallsNothing | internal/operator/pvc/pvc.go:155-160 | A refused selector makes `Create` return the error with the store and call log untouched. |
| PvcProperties.OnlyKeyRejected | internal/operator/pvc/pvc.go:155-160 | `"onlykey"` on the create path is refused before any API call. |
| PvcProperties.EmptyValueAccepted | internal/operator/pvc/pvc.go:155-165 | `"k="` is accepted. The selector is rendered from key `"k"` and an empty value. |
| PvcProperties.StaticSelector | internal/operator/pvc/pvc.go:153-165 | On the static path, labels `key=value` make the template receive the selector rendered from exactly that key and value. |
| PvcProperties.AcceptedSelectorShape | internal/operator/pvc/pvc.go:155-161 | Every accepted non-empty selector is of the form `key=value` with no `=` in either part. |
| PvcProperties.DynamicIgnoresMatchLabels | internal/operator/pvc/pvc.go:147-152 | On the dynamic path the raw labels go to the storage-class template, and no selector error can arise. |
| PvcProperties.SelectorFailureMeansNoLabels | internal/operator/pvc/pvc.go:209-224 | On the static path, a well-formed `key=value` whose selector template fails yields the same manifest, or the same error, as a specification with no match labels: the failure is indistinguishable from "no labels". |
| PvcModel.Render | internal/operator/pvc/pvc.go:165-180 | Rendering fails only with a template or a decoding error. |
| PvcModel.CreateIfNotExists | internal/operator/pvc/pvc.go:82-104 | The descriptor returned depends only on the specification and `pvcName`, whatever the store does or fails with. |
| PvcProperties.NoOpStorage | internal/operator/pvc/pvc.go:83-89 | For `""`/`emptydir` the claim name is empty and the groups are `GetSupplementalGroups()`. There is no error, no API call and no change to the store. |
| PvcProperties.ExistingBindsByName | internal/operator/pvc/pvc.go:91-92 | For `existing` the claim name is `spec.Name`. There is no API call and no error. |
| PvcProperties.CreateTypeAttemptsOnce | internal/operator/pvc/pvc.go:94-103 | For `create`/`dynamic` the claim name is `pvcName`. Exactly one create call is issued when the manifest builds, none otherwise. Success means the create succeeded or found the name taken. The claims are then the old ones, plus the new claim when its name was free, and nothing else changes. Any other error is returned with the filled-in result. |
| PvcProperties.CreateIfNotExistsIdempotent | internal/operator/pvc/pvc.go:96-103 | After a successful call, a second call on the store it left returns the same descriptor and leaves the claims unchanged. Its "already exists" is absorbed, so it fails only when the API faults that second create, and then with that fault's error. |
| PvcProperties.CreatePVCAgainstCreateIfNotExists | internal/operator/pvc/pvc.go:107-130 | `CreatePVC` returns `spec.Name` for `existing` and the input `pvcName` otherwise. It passes every create error through, "already exists" included. Its error is `CreateIfNotExists`'s with AlreadyExists not absorbed. |
| PvcProperties.TablespacesSkippedAfterError | internal/operator/pvc/pvc.go:68-75 | An error already set when the loop starts skips every tablespace: no call and no entry. |
| PvcProperties.TablespacesStopAtFirstError | internal/operator/pvc/pvc.go:69-74 | Once a prefix of the order has failed, the rest of the loop changes neither the store, the call log, the map nor the error. |
| PvcProperties.TablespacesEntries | internal/operator/pvc/pvc.go:68-75 | Every key of the result map is a visited tablespace, and so a key of `TablespaceMounts`. Each entry holds its specification's descriptor, failed or not. |
| PvcProperties.TablespacesSucceed | internal/operator/pvc/pvc.go:68-75 | A loop without error has an entry for every tablespace, and the map is the same for every iteration order. |
| PvcProperties.TablespacesFirstError | internal/operator/pvc/pvc.go:69-74 | A failed loop failed at some tablespace after a clean prefix. The error and state returned are that step's, and the entries are exactly the tablespaces up to and including the failing one. |
| PvcProperties.DataFailureSkipsRest | internal/operator/pvc/pvc.go:60-77 | When the data step fails, the WAL step and all tablespaces are skipped. The WAL result stays zero, the map is empty, and the data step's error and store are returned. |
| PvcProperties.WalAfterData | internal/operator/pvc/pvc.go:63-66 | After a clean data step the WAL volume is provisioned under `pvcNamePrefix + "-wal"`. If that fails, no tablespace is attempted. |
| PvcProperties.VolumesComplete | internal/operator/pvc/pvc.go:52-78 | A pass without error returns the descriptor every specification calls for: data, WAL and each tablespace. |
| PvcProperties.DeleteOnlyWhenMarked | internal/operator/pvc/pvc.go:187-201 | Exactly one lookup is made. Exactly one delete is made iff the claim was found with its removal label equal to `"true"`. Otherwise the lookup's error (nil for a missing claim) is returned and the claims are unchanged. Any error, a faulted delete included, leaves the claims unchanged. |
| PvcProperties.ExistsIffFound | internal/operator/pvc/pvc.go:204-207 | `Exists` is true iff the lookup returned an object. Lookup errors give false. |
| Pvc.Create | internal/operator/pvc/pvc.go:133-184 | Store and error after the step-wise method are exactly `PvcModel.Create`'s. |
| Pvc.CreateIfNotExists | internal/operator/pvc/pvc.go:82-104 | Store, result and error are exactly `PvcModel.CreateIfNotExists`'s. |
| Pvc.CreatePVC | internal/operator/pvc/pvc.go:107-130 | Store, name and error are exactly `PvcModel.CreatePVC`'s. |
| Pvc.CreateMissingPostgreSQLVolumes | internal/operator/pvc/pvc.go:52-78 | The loop that fills the map in place leaves exactly the store, results, map and error of `PvcModel.CreateMissingPostgreSQLVolumes`, for the given order. |
| Pvc.DeleteIfExists | internal/operator/pvc/pvc.go:187-201 | Store and error are exactly `PvcModel.DeleteIfExists`'s. |
| Pvc.Exists | internal/operator/pvc/pvc.go:204-207 | Store and answer are exactly `PvcModel.Exists`'s. |
| PgoBackrest.Run | pgo-backrest/pgo-backrest.go:47-125 | Appending one word at a time yields exactly the outcome of `Dispatch`. |
| PgoBackrest.RequiredSettings | pgo-backrest/pgo-backrest.go:47-69 | An empty NAMESPACE, COMMAND or PODNAME exits with status 2. An empty COMMAND_OPTS does not stop a supported command. |
| PgoBackrest.SubcommandChoice | pgo-backrest/pgo-backrest.go:89-104 | With distinct task commands, each of the three selects `stanza-create`, `info` or `backup` respectively, and no other command selects anything. |
| PgoBackrest.UnsupportedCommandExits | pgo-backrest/pgo-backrest.go:105-107 | Any other COMMAND exits with status 2 and nothing is executed. |
| PgoBackrest.CommandLineBase | pgo-backrest/pgo-backrest.go:89-104 | Every command line starts with `pgbackrest <sub> COMMAND_OPTS`. |
| PgoBackrest.LocalS3RunsTwice | pgo-backrest/pgo-backrest.go:110-116 | With local S3 storage the list is `base ++ ["&&", join(base, " "), "--repo-type=s3"]`, of length 6. It does not depend on `PGBACKREST_REPO_TYPE`. Its script is the base command, `&&`, then the base command again with the S3 flag. |
| PgoBackrest.RepoTypeFlag | pgo-backrest/pgo-backrest.go:116-119 | Without local S3 storage the list is `base ++ ["--repo-type=s3"]` when the repository type is `s3`, and exactly `base` otherwise. |
| PgoBackrest.ExecTarget | pgo-backrest/pgo-backrest.go:85-125 | The script executed is the space-join of the final list, run through `["bash"]` in container `database` of the named pod and namespace. |
| PgoBackrest.SnapshotWithoutConjunction | pgo-backrest/pgo-backrest.go:111-113 | The copied command holds `&&` only when COMMAND_OPTS does. The join is of the three-word snapshot taken before `&&` was appended. |

## Left out

- Kubernetes client: `clientset.CoreV1()...Create`, `kubeapi.GetPVCIfExists`, `kubeapi.DeletePVC`, `kubeapi.IsAlreadyExists` and `kubeapi.NewKubeClient` are not part of this model. They are replaced by the abstract claim store and its error oracle.
- The store assumes that `GetPVCIfExists` returns an object only without an error. An injected create fault is checked before the name-taken check.
- `kubeapi.NewKubeClient` failing makes pgo-backrest panic. This is not modelled.
- Manifest templates and `json.Unmarshal` are opaque functions of the fields that may fail. This covers `config.PVCTemplate`, `config.PVCStorageClassTemplate` and `config.PVCMatchLabelsTemplate`, whose text is not part of this model. So no selector round trip through a rendered manifest is claimed.
- A decoded claim is reduced to its name and labels.
- `spec.GetSupplementalGroups()`, `operator.GetTablespacePVCName` and the label key `config.LABEL_PGREMOVE` are opaque parameters. No injectivity of the claim-name function is assumed.
- Go's map iteration order over `TablespaceMounts` is a parameter: any sequence of the keys, each once.
- The namespace is part of every claim's key. Nothing else is done with it.
- Logging and the `CRUNCHY_DEBUG` echo of manifests and of the debug level are I/O and are left out.
- `os.Getenv` is replaced by the `Env` record, and `os.Exit(2)` by the `Exit(2)` outcome.
- `strconv.ParseBool` is a boolean input. A value that fails to parse reads as false.
- `kubeapi.ExecToPodThroughAPI` and the exit with status 2 when it fails are not modelled. The model stops at the exec request it would make (shell, container, pod, namespace, script).
- The values of the `crv1.PgtaskBackrest*` constants are foreign. They are a `TaskCommands` parameter, and `Distinct` is assumed only where a lemma needs it.
- Go slice aliasing between `firstCmd` and `cmdStrs` is not modelled: the model uses value sequences. `firstCmd` keeps length 3, so the later appends cannot change what is joined.
