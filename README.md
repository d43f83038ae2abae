# Kubelet CA ConfigMap convergence, modelled in Dafny

The node-observability operator keeps a copy of the kubelet serving CA
ConfigMap in its operand namespace. `ensureKubeletCAConfigMap` reads the
source ConfigMap. If the source is missing it stops. Otherwise it builds
the desired copy at the fixed key `(targetNamespace, "kubelet-serving-ca")`.
It creates the copy when the target is missing. It updates the target when
its `Data` differs, sending the current object with only `Data` replaced.
It does nothing when the `Data` already match. After a write it reads the
target back and returns it. A read that fails with NotFound means the
object is absent. Every other failure of a read, and every failure of a
create or update (NotFound included), is returned at once.

The model has these parts:

- `ConfigMaps` (configmaps.dfy): namespaced names, metadata and ConfigMaps.
  `Data` is an `Option<map<string, string>>`. A nil Go map is `None`, so it
  stays distinct from an empty map, as it is for `reflect.DeepEqual`.
- `ApiStore` (api_store.dfy): the remote store as a value. It holds the
  objects by key and a counter it uses to assign a `resourceVersion` on each
  successful write. It also holds a script of injected failures: each remote
  call consumes one entry, which lets the call through or fails it with a
  chosen error. Finally it holds the log of calls issued. `Get` and `Update` return
  NotFound for a missing key. `Create` returns AlreadyExists for a key
  that is taken. `Update` returns Conflict for a stale `resourceVersion`.
  The store invariant `Valid` files every object under its own key and
  keeps every stored `resourceVersion` below the counter, so the version a
  write assigns differs from every version stored before it.
- `ApiClient` (api_client.dfy): class `Client`, an in-memory stand-in for the
  controller-runtime client. Its fields hold that state and its methods
  update them in place. Each method is proved equal to its `ApiStore` function.
  Its constructor takes only objects filed under their own keys and a
  counter above every stored `resourceVersion`, so a new client satisfies
  the store invariant `Valid` that the lemmas assume.
- `CAConfigMap` (ca_configmap.dfy): every function of
  `pkg/operator/controller/ca-configmap/ca_configmap.go`. The three pure
  helpers are plain functions. Each function that calls the store maps a
  store state to the state after its calls, together with the Go return values.
- `CAConfigMapReconciler` (ca_configmap_reconciler.dfy): class `Reconciler`.
  Its methods issue the calls one at a time through a `Client`, following the
  Go code's order and early returns. Each is proved to compute exactly its
  `CAConfigMap` function.
- `CAConfigMapProperties` (ca_configmap_properties.dfy): the routine's
  properties, first branch by branch, then for a whole run.

`configMapsEqual` compares with `reflect.DeepEqual`, which tells a nil
`Data` map from an empty one (`NilDataDiffersFromEmpty`). So a target with
empty `Data` and a source with nil `Data` lead to an update.

The model also keeps one quirk of the code. After a successful create or
update, the routine returns whatever the read-back returns. If that read
reports NotFound, the result is `(false, nil, nil)`, the same as for a
missing source.

## Model

| member | source | states |
|---|---|---|
| ApiStore.Get | pkg/operator/controller/ca-configmap/ca_configmap.go:71 | a read never changes the objects and uses up one scripted fault; it returns the stored object exactly when no failure is injected and the key is present; otherwise it returns NotFound or the injected error |
| ApiStore.Create | pkg/operator/controller/ca-configmap/ca_configmap.go:82 | a create uses up one scripted fault and succeeds exactly when no failure is injected and the key is free; a taken key gives AlreadyExists and an injected failure gives its own error; on success it stores the object with the counter as its resourceVersion and advances the counter, on failure it changes neither; it keeps the invariant Valid, under which the new resourceVersion differs from every stored one |
| ApiStore.Update | pkg/operator/controller/ca-configmap/ca_configmap.go:108 | an update uses up one scripted fault and succeeds exactly when no failure is injected, the key is present and the resourceVersion sent matches the stored one; a missing key gives NotFound, a stale resourceVersion gives Conflict and an injected failure gives its own error; on success it replaces the object, with the counter as its resourceVersion, and advances the counter, on failure it changes neither; it keeps the invariant Valid, under which the new resourceVersion differs from every stored one |
| ApiClient.Client.Get | pkg/operator/controller/ca-configmap/ca_configmap.go:71 | the in-place client's read leaves its state and result exactly as ApiStore.Get says |
| ApiClient.Client.Create | pkg/operator/controller/ca-configmap/ca_configmap.go:82 | the in-place client's create leaves its state and result exactly as ApiStore.Create says |
| ApiClient.Client.Update | pkg/operator/controller/ca-configmap/ca_configmap.go:108 | the in-place client's update leaves its state and result exactly as ApiStore.Update says |
| CAConfigMap.SourceName | pkg/operator/controller/ca-configmap/ca_configmap.go:33 | the source key is the configured source namespace and ConfigMap name; SourceUnavailable states what a run does when nothing is found there |
| CAConfigMap.NodeObsKubeletCAConfigMapName | pkg/operator/controller/ca-configmap/ca_configmap.go:122-128 | the target key is the operand namespace with the name "kubelet-serving-ca", and distinct namespaces give distinct keys (proved in TargetNameIsFixed) |
| CAConfigMap.DesiredKubeletCAConfigMap | pkg/operator/controller/ca-configmap/ca_configmap.go:89-98 | the desired object sits at the target key, has the source's Data and no other field of the source (proved in DesiredMirrorsSourceData) |
| CAConfigMap.ConfigMapsEqual | pkg/operator/controller/ca-configmap/ca_configmap.go:115-120 | two ConfigMaps compare equal exactly when their Data are equal, whatever their metadata (proved in EqualityIgnoresMetadata), and nil Data differ from empty Data (proved in NilDataDiffersFromEmpty) |
| CAConfigMap.CurrentKubeletCAConfigMap | pkg/operator/controller/ca-configmap/ca_configmap.go:69-78 | issues one read and writes nothing; returns (true, the stored object, nil) only when the read passes and the object is stored, (false, nil, nil) exactly when the object is absent or NotFound is reported, and (false, nil, err) for every injected error other than NotFound, whether or not the object is stored |
| CAConfigMap.CreateKubeletCAConfigMap | pkg/operator/controller/ca-configmap/ca_configmap.go:81-87 | issues one create of the given object, using up one scripted fault; it succeeds exactly when no failure is injected and the key is free, and otherwise passes on the injected error or AlreadyExists unchanged; on success that object is stored and the version counter advances, on error neither changes |
| CAConfigMap.UpdateKubeletCAConfigMap | pkg/operator/controller/ca-configmap/ca_configmap.go:100-113 | with equal Data it issues no call and returns (false, nil) with the state unchanged; otherwise it issues one update of the current object with only Data replaced, using up one scripted fault, and reports true exactly when no failure is injected, the key is present and the resourceVersion matches; then the object is replaced and the version counter advances, and otherwise the update's own error comes back unchanged and nothing changes |
| CAConfigMap.EnsureKubeletCAConfigMap | pkg/operator/controller/ca-configmap/ca_configmap.go:29-66 | a run only appends to the call log, and it reports the target present exactly when it returns an object |
| CAConfigMapReconciler.Reconciler.CurrentKubeletCAConfigMap | pkg/operator/controller/ca-configmap/ca_configmap.go:69-78 | the method changes the client and returns exactly what CAConfigMap.CurrentKubeletCAConfigMap computes |
| CAConfigMapReconciler.Reconciler.CreateKubeletCAConfigMap | pkg/operator/controller/ca-configmap/ca_configmap.go:81-87 | the method changes the client and returns exactly what CAConfigMap.CreateKubeletCAConfigMap computes |
| CAConfigMapReconciler.Reconciler.UpdateKubeletCAConfigMap | pkg/operator/controller/ca-configmap/ca_configmap.go:102-113 | the method copies the current object, replaces its Data, and changes the client and returns exactly what CAConfigMap.UpdateKubeletCAConfigMap computes |
| CAConfigMapReconciler.Reconciler.EnsureKubeletCAConfigMap | pkg/operator/controller/ca-configmap/ca_configmap.go:31-66 | the method's sequence of calls and early returns leaves the client and returns exactly what CAConfigMap.EnsureKubeletCAConfigMap computes |
| CAConfigMapProperties.TargetNameIsFixed | pkg/operator/controller/ca-configmap/ca_configmap.go:122-128 | the target key is the operand namespace with the name "kubelet-serving-ca", and two namespaces give the same key only if they are equal |
| CAConfigMapProperties.DesiredMirrorsSourceData | pkg/operator/controller/ca-configmap/ca_configmap.go:89-98 | the desired object sits at the target key, has the source's Data and no resourceVersion or labels, and two sources give the same desired object exactly when their Data are equal |
| CAConfigMapProperties.EqualityIgnoresMetadata | pkg/operator/controller/ca-configmap/ca_configmap.go:115-120 | two ConfigMaps compare equal exactly when their Data do; replacing either one's metadata never changes the answer |
| CAConfigMapProperties.NilDataDiffersFromEmpty | pkg/operator/controller/ca-configmap/ca_configmap.go:119 | a ConfigMap with nil Data does not compare equal to the same ConfigMap with empty Data |
| CAConfigMapProperties.SourceUnavailable | pkg/operator/controller/ca-configmap/ca_configmap.go:32-39 | when the source read fails or finds nothing, only that read is issued, so no create or update; no object changes (an existing target stays as it is) and the result is (false, nil, err) or (false, nil, nil) |
| CAConfigMapProperties.TargetReadFails | pkg/operator/controller/ca-configmap/ca_configmap.go:41-45 | when the target read fails with an error other than NotFound, exactly the two reads are issued, no write, and the result is (false, nil, err) |
| CAConfigMapProperties.CreateOnAbsence | pkg/operator/controller/ca-configmap/ca_configmap.go:47-56 | when the target is absent, exactly one create of the desired object is issued and no other write; on failure no object changes and the counter stays; on success the copy is stored under the next resourceVersion, the counter advances and the target is read back |
| CAConfigMapProperties.CreateOnAbsenceResult | pkg/operator/controller/ca-configmap/ca_configmap.go:50-56 | when the target is absent, a failed create gives (false, nil, err), AlreadyExists and injected errors alike; after a create that went through, a passing read-back gives (true, stored copy, nil), and a failing one gives (false, nil, err), or (false, nil, nil) when it reports NotFound |
| CAConfigMapProperties.NoWriteOnEquality | pkg/operator/controller/ca-configmap/ca_configmap.go:58-65 | when the target already has the source's Data, only the two reads are issued, no write, and the result is (true, target, nil) |
| CAConfigMapProperties.UpdateOnDivergence | pkg/operator/controller/ca-configmap/ca_configmap.go:58-62 | when the target's Data differ, exactly one update and no other write is issued, of the current target with only Data replaced (its resourceVersion and labels are kept); on failure no object changes and the counter stays; on success the new object is stored under the next resourceVersion, the counter advances and the target is read back |
| CAConfigMapProperties.UpdateOnDivergenceResult | pkg/operator/controller/ca-configmap/ca_configmap.go:58-62 | when the target's Data differ, a failed update gives (true, target, err); after an update that went through, a passing read-back gives (true, stored object, nil), and a failing one gives (false, nil, err), or (false, nil, nil) when it reports NotFound |
| CAConfigMapProperties.AtMostOneWrite | pkg/operator/controller/ca-configmap/ca_configmap.go:50-65 | a run issues at most one create or update call |
| CAConfigMapProperties.OnlyTargetChanges | pkg/operator/controller/ca-configmap/ca_configmap.go:31-66 | a run keeps every object under its own key, deletes nothing, and adds or changes no object other than the one at the target key |
| CAConfigMapProperties.SuccessMeansConverged | pkg/operator/controller/ca-configmap/ca_configmap.go:50-65 | a run that returns (true, obj, nil) leaves obj stored at the target key, and its Data are the source's Data |
| CAConfigMapProperties.ConvergesWithoutFaults | pkg/operator/controller/ca-configmap/ca_configmap.go:31-66 | with the source present and no failure injected, a run always ends in (true, obj, nil) with the target's Data equal to the source's |
| CAConfigMapProperties.SecondRunWritesNothing | pkg/operator/controller/ca-configmap/ca_configmap.go:59-65 | after a successful run, a second run against the same objects issues no create or update and changes nothing; when it succeeds it returns the same result as the first run |

## Left out

- `pkg/operator/controller/machineconfig/impl.go` is not part of this model. It only wraps client-go and controller-runtime constructors.
- The log lines at ca_configmap.go:85 and :111 are not modelled. They have no effect on the result.
- `context.Context` is left out. A cancelled context is one more way for a call to fail, and the injected failures already cover that.
- Real API-server behaviour is reduced to Get, Create and Update on a map. Validation, defaulting, watches and caches are not modelled. The store assigns `resourceVersion` from a counter and checks it on update.
- Go map aliasing is not modelled. `desired.Data` shares the source's map, but Dafny maps are values. `DeepCopy` followed by the assignment to `Data` becomes a record update.
- The ConfigMap fields `BinaryData` and `Immutable`, and the metadata other than name, namespace, resourceVersion and labels, are not modelled. `labels` stands for everything the routine carries without looking at it.
- Concurrent runs and their scheduling are not modelled. A concurrent writer shows up only as a Conflict error. Such an error is injected, or arises when the resourceVersion sent is stale.
- The store does not turn empty `Data` into nil. The ConfigMap's `data` field is encoded with `omitempty`, so an empty map is never sent, and a real read returns nil `Data`. The model's store keeps `Some(map[])` through Create, Update and Get.
- SecondRunWritesNothing: excludes injected NotFound faults on the second run. A spurious NotFound on the target read makes the routine attempt a create, which the store rejects with AlreadyExists.
