/** The functions of the kubelet CA ConfigMap controller, as functions from
    the store's state to the state after the calls they issue and what they
    return. The reconciler's methods are proved to compute exactly these. */
module CAConfigMap {
  import opened ConfigMaps
  import opened ApiStore

  /** The fixed name of the ConfigMap the routine maintains. */
  const KubeletServingCAName: string := "kubelet-serving-ca"

  /** The reconciler's configuration: where the source lives, and the operand
      namespace the copy goes to. */
  datatype Config = Config(sourceNamespace: string, caConfigMapName: string, targetNamespace: string)

  /** The Go triple (exists, *ConfigMap, error). */
  datatype Outcome = Outcome(found: bool, cm: Option<ConfigMap>, err: Option<Error>)

  function SourceName(cfg: Config): NamespacedName
  {
    NamespacedName(cfg.sourceNamespace, cfg.caConfigMapName)
  }

  /** nodeObsKubeletCAConfigMapName: the key of the copy in the operand namespace. */
  function NodeObsKubeletCAConfigMapName(operandNamespace: string): NamespacedName
  {
    NamespacedName(operandNamespace, KubeletServingCAName)
  }

  /** desiredKubeletCAConfigMap: a fresh object at targetName holding the source's data. */
  function DesiredKubeletCAConfigMap(source: ConfigMap, targetName: NamespacedName): ConfigMap
  {
    ConfigMap(ObjectMeta(targetName.name, targetName.namespace, 0, map[]), source.data)
  }

  /** configMapsEqual: reflect.DeepEqual on the two Data maps only. */
  predicate ConfigMapsEqual(a: ConfigMap, b: ConfigMap)
  {
    a.data == b.data
  }

  /** currentKubeletCAConfigMap: read one object; NotFound is absence, not an error. */
  function CurrentKubeletCAConfigMap(s: State, name: NamespacedName): (r: (State, Outcome))
    ensures r.0 == Issue(s, GetCall(name))
    ensures r.1.found <==> r.1.cm.Some?
    ensures r.1.found ==> r.1.err == None && FaultAt(s, 0) == Pass && name in s.objects && r.1.cm.value == s.objects[name]
    ensures FaultAt(s, 0).Fail? && !IsNotFound(FaultAt(s, 0).err) ==> r.1 == Outcome(false, None, Some(FaultAt(s, 0).err))
    ensures r.1.err.Some? ==> !r.1.found && !IsNotFound(r.1.err.value) && FaultAt(s, 0) == Fail(r.1.err.value)
    ensures !r.1.found && r.1.err == None <==>
              (FaultAt(s, 0) == Pass && name !in s.objects) || (FaultAt(s, 0).Fail? && IsNotFound(FaultAt(s, 0).err))
  {
    var (s', res) := Get(s, name);
    match res
    case Ok(cm) => (s', Outcome(true, Some(cm), None))
    case Err(e) => if IsNotFound(e) then (s', Outcome(false, None, None)) else (s', Outcome(false, None, Some(e)))
  }

  /** createKubeletCAConfigMap: one create call; its error, if any, is passed on. */
  function CreateKubeletCAConfigMap(s: State, cm: ConfigMap): (r: (State, Option<Error>))
    ensures r.0.calls == s.calls + [CreateCall(cm)] && r.0.faults == Issue(s, CreateCall(cm)).faults
    ensures r.1 == None <==> FaultAt(s, 0) == Pass && KeyOf(cm) !in s.objects
    ensures FaultAt(s, 0).Fail? ==> r.1 == Some(FaultAt(s, 0).err)
    ensures FaultAt(s, 0) == Pass && KeyOf(cm) in s.objects ==> r.1 == Some(AlreadyExists(KeyOf(cm)))
    ensures r.1 == None ==> r.0.objects == s.objects[KeyOf(cm) := Stamp(cm, s.nextVersion)]
    ensures r.1 != None ==> r.0.objects == s.objects
    ensures r.0.nextVersion == if r.1 == None then s.nextVersion + 1 else s.nextVersion
  {
    Create(s, cm)
  }

  /** updateKubeletCAConfigMap: write desired's data over current unless the
      two are already equal; the result says whether a write went through. */
  function UpdateKubeletCAConfigMap(s: State, current: ConfigMap, desired: ConfigMap): (r: (State, bool, Option<Error>))
    ensures r.1 ==> r.2 == None
    ensures ConfigMapsEqual(current, desired) ==> r == (s, false, None)
    ensures !ConfigMapsEqual(current, desired) ==>
              && r.0.calls == s.calls + [UpdateCall(current.(data := desired.data))]
              && r.0.faults == Issue(s, UpdateCall(current.(data := desired.data))).faults
              && (r.1 <==> r.2 == None)
              && (r.1 <==> FaultAt(s, 0) == Pass && KeyOf(current) in s.objects &&
                           s.objects[KeyOf(current)].meta.resourceVersion == current.meta.resourceVersion)
              && (!r.1 ==> r.2 == Update(s, current.(data := desired.data)).1)
              && (r.1 ==> r.0.objects == s.objects[KeyOf(current) := Stamp(current.(data := desired.data), s.nextVersion)])
              && (!r.1 ==> r.0.objects == s.objects)
              && r.0.nextVersion == if r.1 then s.nextVersion + 1 else s.nextVersion
  {
    if ConfigMapsEqual(current, desired) then (s, false, None)
    else
      var updated := current.(data := desired.data);
      var (s', err) := Update(s, updated);
      if err.Some? then (s', false, err) else (s', true, None)
  }

  /** ensureKubeletCAConfigMap: copy the source ConfigMap to the operand namespace. */
  function EnsureKubeletCAConfigMap(s: State, cfg: Config): (r: (State, Outcome))
    ensures s.calls <= r.0.calls
    ensures r.1.found <==> r.1.cm.Some?
  {
    var srcName := SourceName(cfg);
    var (s1, src) := CurrentKubeletCAConfigMap(s, srcName);
    if src.err.Some? then (s1, Outcome(false, None, src.err))
    else if !src.found then (s1, Outcome(false, None, None))
    else
      var targetName := NodeObsKubeletCAConfigMapName(cfg.targetNamespace);
      var (s2, tgt) := CurrentKubeletCAConfigMap(s1, targetName);
      if tgt.err.Some? then (s2, Outcome(false, None, tgt.err))
      else
        var desired := DesiredKubeletCAConfigMap(src.cm.value, targetName);
        if !tgt.found then
          var (s3, err) := CreateKubeletCAConfigMap(s2, desired);
          if err.Some? then (s3, Outcome(false, None, err))
          else CurrentKubeletCAConfigMap(s3, targetName)
        else
          var (s3, updated, err) := UpdateKubeletCAConfigMap(s2, tgt.cm.value, desired);
          if err.Some? then (s3, Outcome(true, tgt.cm, err))
          else if updated then CurrentKubeletCAConfigMap(s3, targetName)
          else (s3, Outcome(true, tgt.cm, None))
  }

  /** Between two states, nothing is deleted and no object other than the one
      at target is added or changed. */
  ghost predicate NoOtherChange(s: State, s': State, target: NamespacedName)
  {
    && s.objects.Keys <= s'.objects.Keys
    && s'.objects.Keys <= s.objects.Keys + {target}
    && forall k | k in s.objects && k != target :: s'.objects[k] == s.objects[k]
  }
}
