/** The Kubernetes objects the kubelet CA routine handles: a ConfigMap, its
    metadata and the namespaced name that identifies it in the store. */
module ConfigMaps {

  datatype Option<+T> = None | Some(value: T)

  /** types.NamespacedName: the key of an object in the remote store. */
  datatype NamespacedName = NamespacedName(namespace: string, name: string)

  /** The part of metav1.ObjectMeta the model keeps. resourceVersion is the
      store's optimistic-concurrency token; 0 stands for the empty string that
      an object built by a client carries. labels stands for every other piece
      of metadata that no step of the routine inspects. */
  datatype ObjectMeta = ObjectMeta(
    name: string,
    namespace: string,
    resourceVersion: nat,
    labels: map<string, string>)

  /** corev1.ConfigMap. A nil Go map is None, a non-nil map (empty or not)
      is Some: reflect.DeepEqual tells the two apart. */
  datatype ConfigMap = ConfigMap(meta: ObjectMeta, data: Option<map<string, string>>)

  /** The key under which a ConfigMap is stored. */
  function KeyOf(cm: ConfigMap): NamespacedName
  {
    NamespacedName(cm.meta.namespace, cm.meta.name)
  }
}
