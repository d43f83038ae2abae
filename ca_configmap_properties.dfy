/** What ensureKubeletCAConfigMap promises, branch by branch and as a whole. */
module CAConfigMapProperties {
  import opened ConfigMaps
  import opened ApiStore
  import opened CAConfigMap

  // ---- The pure helpers ----

  /** The copy's key depends on the operand namespace alone, and tells it back. */
  lemma TargetNameIsFixed(operandNamespace: string, other: string)
    ensures NodeObsKubeletCAConfigMapName(operandNamespace).namespace == operandNamespace
    ensures NodeObsKubeletCAConfigMapName(operandNamespace).name == "kubelet-serving-ca"
    ensures NodeObsKubeletCAConfigMapName(operandNamespace) == NodeObsKubeletCAConfigMapName(other)
            <==> operandNamespace == other
  {
  }

  /** The desired object sits at the target key, carries the source's data, and
      takes no other field from the source: two sources with the same data give
      the same desired object. */
  lemma DesiredMirrorsSourceData(source: ConfigMap, other: ConfigMap, targetName: NamespacedName)
    ensures KeyOf(DesiredKubeletCAConfigMap(source, targetName)) == targetName
    ensures ConfigMapsEqual(DesiredKubeletCAConfigMap(source, targetName), source)
    ensures DesiredKubeletCAConfigMap(source, targetName).meta.resourceVersion == 0
    ensures DesiredKubeletCAConfigMap(source, targetName).meta.labels == map[]
    ensures ConfigMapsEqual(source, other) <==>
            DesiredKubeletCAConfigMap(source, targetName) == DesiredKubeletCAConfigMap(other, targetName)
  {
  }

  /** Equality looks at the data alone: any metadata may differ. */
  lemma EqualityIgnoresMetadata(a: ConfigMap, b: ConfigMap, metaA: ObjectMeta, metaB: ObjectMeta)
    ensures ConfigMapsEqual(a, b) <==> a.data == b.data
    ensures ConfigMapsEqual(a.(meta := metaA), b.(meta := metaB)) == ConfigMapsEqual(a, b)
  {
  }

  /** reflect.DeepEqual does not equate a nil map with an empty one, so neither
      does the routine. */
  lemma NilDataDiffersFromEmpty(cm: ConfigMap)
    ensures !ConfigMapsEqual(cm.(data := None), cm.(data := Some(map[])))
  {
  }

  // ---- ensureKubeletCAConfigMap, branch by branch ----

  /** The calls a run adds to the log. */
  function Issued(s: State, s': State): seq<Call>
    requires s.calls <= s'.calls
  {
    s'.calls[|s.calls|..]
  }

  /** The calls a run issued, read off its log. */
  lemma IssuedCalls(s: State, s': State, added: seq<Call>)
    requires s'.calls == s.calls + added
    ensures Issued(s, s') == added
  {
  }

  /** A log of two reads, one write and possibly one more read holds one write. */
  lemma {:induction false} OneWriteBetweenReads(a: NamespacedName, b: NamespacedName, w: Call, rest: seq<Call>)
    requires w.IsWrite()
    requires rest == [] || rest == [GetCall(b)]
    ensures WriteCount([GetCall(a), GetCall(b), w] + rest) == 1
  {
    WriteCountAppend([GetCall(a), GetCall(b), w], rest);
    WriteCountAppend([GetCall(a), GetCall(b)], [w]);
  }

  /** The source read fails or finds nothing: only that read is issued, the
      store keeps its objects (a target already there is left alone), and the
      result is (false, nil, err) or (false, nil, nil). */
  lemma SourceUnavailable(s: State, cfg: Config)
    requires !(FaultAt(s, 0) == Pass && SourceName(cfg) in s.objects)
    ensures var r := EnsureKubeletCAConfigMap(s, cfg);
            && r.0 == Issue(s, GetCall(SourceName(cfg)))
            && r.0.objects == s.objects
            && r.1 == Outcome(false, None,
                              if FaultAt(s, 0).Fail? && !IsNotFound(FaultAt(s, 0).err)
                              then Some(FaultAt(s, 0).err) else None)
    ensures WriteCount(Issued(s, EnsureKubeletCAConfigMap(s, cfg).0)) == 0
  {
  }

  /** The source is read but the target read fails: (false, nil, err) after two reads. */
  lemma TargetReadFails(s: State, cfg: Config)
    requires FaultAt(s, 0) == Pass && SourceName(cfg) in s.objects
    requires FaultAt(s, 1).Fail? && !IsNotFound(FaultAt(s, 1).err)
    ensures var r := EnsureKubeletCAConfigMap(s, cfg);
            && r.0 == Issue(Issue(s, GetCall(SourceName(cfg))), GetCall(NodeObsKubeletCAConfigMapName(cfg.targetNamespace)))
            && r.1 == Outcome(false, None, Some(FaultAt(s, 1).err))
    ensures WriteCount(Issued(s, EnsureKubeletCAConfigMap(s, cfg).0)) == 0
  {
  }

  /** The target is absent: exactly one create of the desired object is
      issued; if it goes through, the copy is stored under a fresh
      resourceVersion and the target is read back. */
  lemma CreateOnAbsence(s: State, cfg: Config)
    requires FaultAt(s, 0) == Pass && SourceName(cfg) in s.objects
    requires (FaultAt(s, 1) == Pass && NodeObsKubeletCAConfigMapName(cfg.targetNamespace) !in s.objects) ||
             (FaultAt(s, 1).Fail? && IsNotFound(FaultAt(s, 1).err))
    ensures var r := EnsureKubeletCAConfigMap(s, cfg);
            var src, tgt := SourceName(cfg), NodeObsKubeletCAConfigMapName(cfg.targetNamespace);
            var desired := DesiredKubeletCAConfigMap(s.objects[src], tgt);
            var created := FaultAt(s, 2) == Pass && tgt !in s.objects;
            && r.0.calls == s.calls + [GetCall(src), GetCall(tgt), CreateCall(desired)]
                                    + (if created then [GetCall(tgt)] else [])
            && r.0.objects == (if created then s.objects[tgt := Stamp(desired, s.nextVersion)] else s.objects)
            && r.0.nextVersion == (if created then s.nextVersion + 1 else s.nextVersion)
    ensures WriteCount(Issued(s, EnsureKubeletCAConfigMap(s, cfg).0)) == 1
  {
    var r := EnsureKubeletCAConfigMap(s, cfg);
    var src, tgt := SourceName(cfg), NodeObsKubeletCAConfigMapName(cfg.targetNamespace);
    var desired := DesiredKubeletCAConfigMap(s.objects[src], tgt);
    var rest := if FaultAt(s, 2) == Pass && tgt !in s.objects then [GetCall(tgt)] else [];
    assert r.0.calls == s.calls + [GetCall(src), GetCall(tgt), CreateCall(desired)] + rest;
    IssuedCalls(s, r.0, [GetCall(src), GetCall(tgt), CreateCall(desired)] + rest);
    OneWriteBetweenReads(src, tgt, CreateCall(desired), rest);
  }

  /** The result when the target is absent: a failed create gives
      (false, nil, err), AlreadyExists included; after a create that went
      through, the read-back decides: (true, stored copy, nil), or
      (false, nil, err), or (false, nil, nil) when the read-back reports
      NotFound. */
  lemma CreateOnAbsenceResult(s: State, cfg: Config)
    requires FaultAt(s, 0) == Pass && SourceName(cfg) in s.objects
    requires (FaultAt(s, 1) == Pass && NodeObsKubeletCAConfigMapName(cfg.targetNamespace) !in s.objects) ||
             (FaultAt(s, 1).Fail? && IsNotFound(FaultAt(s, 1).err))
    ensures var r := EnsureKubeletCAConfigMap(s, cfg);
            var src, tgt := SourceName(cfg), NodeObsKubeletCAConfigMapName(cfg.targetNamespace);
            var desired := DesiredKubeletCAConfigMap(s.objects[src], tgt);
            var created := FaultAt(s, 2) == Pass && tgt !in s.objects;
            && (!created ==> r.1 == Outcome(false, None,
                                            Some(if FaultAt(s, 2).Fail? then FaultAt(s, 2).err
                                                 else AlreadyExists(tgt))))
            && (created && FaultAt(s, 3) == Pass ==>
                  r.1 == Outcome(true, Some(Stamp(desired, s.nextVersion)), None))
            && (created && FaultAt(s, 3).Fail? ==>
                  r.1 == Outcome(false, None, if IsNotFound(FaultAt(s, 3).err) then None else Some(FaultAt(s, 3).err)))
  {
  }

  /** The target holds the source's data already: no write at all, and the
      result is (true, target, nil). */
  lemma NoWriteOnEquality(s: State, cfg: Config)
    requires FaultAt(s, 0) == Pass && SourceName(cfg) in s.objects
    requires FaultAt(s, 1) == Pass && NodeObsKubeletCAConfigMapName(cfg.targetNamespace) in s.objects
    requires ConfigMapsEqual(s.objects[NodeObsKubeletCAConfigMapName(cfg.targetNamespace)], s.objects[SourceName(cfg)])
    ensures var r := EnsureKubeletCAConfigMap(s, cfg);
            && r.0 == Issue(Issue(s, GetCall(SourceName(cfg))), GetCall(NodeObsKubeletCAConfigMapName(cfg.targetNamespace)))
            && r.1 == Outcome(true, Some(s.objects[NodeObsKubeletCAConfigMapName(cfg.targetNamespace)]), None)
    ensures WriteCount(Issued(s, EnsureKubeletCAConfigMap(s, cfg).0)) == 0
  {
  }

  /** The target's data differ: exactly one update is issued, of the current
      target with its data replaced and every other field (the resourceVersion
      among them) kept; if it goes through, the new data are stored under a
      fresh resourceVersion and the target is read back. */
  lemma UpdateOnDivergence(s: State, cfg: Config)
    requires Valid(s)
    requires FaultAt(s, 0) == Pass && SourceName(cfg) in s.objects
    requires FaultAt(s, 1) == Pass && NodeObsKubeletCAConfigMapName(cfg.targetNamespace) in s.objects
    requires !ConfigMapsEqual(s.objects[NodeObsKubeletCAConfigMapName(cfg.targetNamespace)], s.objects[SourceName(cfg)])
    ensures var r := EnsureKubeletCAConfigMap(s, cfg);
            var src, tgt := SourceName(cfg), NodeObsKubeletCAConfigMapName(cfg.targetNamespace);
            var sent := s.objects[tgt].(data := s.objects[src].data);
            var updated := FaultAt(s, 2) == Pass;
            && r.0.calls == s.calls + [GetCall(src), GetCall(tgt), UpdateCall(sent)]
                                    + (if updated then [GetCall(tgt)] else [])
            && r.0.objects == (if updated then s.objects[tgt := Stamp(sent, s.nextVersion)] else s.objects)
            && r.0.nextVersion == (if updated then s.nextVersion + 1 else s.nextVersion)
    ensures WriteCount(Issued(s, EnsureKubeletCAConfigMap(s, cfg).0)) == 1
  {
    var r := EnsureKubeletCAConfigMap(s, cfg);
    var src, tgt := SourceName(cfg), NodeObsKubeletCAConfigMapName(cfg.targetNamespace);
    var sent := s.objects[tgt].(data := s.objects[src].data);
    var rest := if FaultAt(s, 2) == Pass then [GetCall(tgt)] else [];
    assert r.0.calls == s.calls + [GetCall(src), GetCall(tgt), UpdateCall(sent)] + rest;
    IssuedCalls(s, r.0, [GetCall(src), GetCall(tgt), UpdateCall(sent)] + rest);
    OneWriteBetweenReads(src, tgt, UpdateCall(sent), rest);
  }

  /** The result when the data differ: a failed update gives
      (true, current target, err) and nothing is written; after an update
      that went through, the read-back decides: (true, stored object, nil),
      or (false, nil, err), or (false, nil, nil) when the read-back reports
      NotFound. */
  lemma UpdateOnDivergenceResult(s: State, cfg: Config)
    requires Valid(s)
    requires FaultAt(s, 0) == Pass && SourceName(cfg) in s.objects
    requires FaultAt(s, 1) == Pass && NodeObsKubeletCAConfigMapName(cfg.targetNamespace) in s.objects
    requires !ConfigMapsEqual(s.objects[NodeObsKubeletCAConfigMapName(cfg.targetNamespace)], s.objects[SourceName(cfg)])
    ensures var r := EnsureKubeletCAConfigMap(s, cfg);
            var src, tgt := SourceName(cfg), NodeObsKubeletCAConfigMapName(cfg.targetNamespace);
            var current := s.objects[tgt];
            var sent := current.(data := s.objects[src].data);
            var updated := FaultAt(s, 2) == Pass;
            && (!updated ==> r.1 == Outcome(true, Some(current), Some(FaultAt(s, 2).err)))
            && (updated && FaultAt(s, 3) == Pass ==>
                  r.1 == Outcome(true, Some(Stamp(sent, s.nextVersion)), None))
            && (updated && FaultAt(s, 3).Fail? ==>
                  r.1 == Outcome(false, None, if IsNotFound(FaultAt(s, 3).err) then None else Some(FaultAt(s, 3).err)))
  {
  }

  // ---- ensureKubeletCAConfigMap as a whole ----

  /** A run issues at most one write: never a create and an update together,
      never a second attempt. */
  lemma {:induction false} AtMostOneWrite(s: State, cfg: Config)
    ensures var r := EnsureKubeletCAConfigMap(s, cfg); WriteCount(Issued(s, r.0)) <= 1
  {
    var src, tgt := SourceName(cfg), NodeObsKubeletCAConfigMapName(cfg.targetNamespace);
    if !(FaultAt(s, 0) == Pass && src in s.objects) {
      SourceUnavailable(s, cfg);
    } else if FaultAt(s, 1).Fail? && !IsNotFound(FaultAt(s, 1).err) {
      TargetReadFails(s, cfg);
    } else if tgt !in s.objects || FaultAt(s, 1).Fail? {
      CreateOnAbsence(s, cfg);
    } else if ConfigMapsEqual(s.objects[tgt], s.objects[src]) {
      NoWriteOnEquality(s, cfg);
    } else {
      // The update is the one write, whether it succeeds or not.
      var r := EnsureKubeletCAConfigMap(s, cfg);
      var sent := s.objects[tgt].(data := s.objects[src].data);
      var beforeUpdate := Issue(Issue(s, GetCall(src)), GetCall(tgt));
      var rest := if Update(beforeUpdate, sent).1 == None then [GetCall(tgt)] else [];
      IssuedCalls(s, r.0, [GetCall(src), GetCall(tgt), UpdateCall(sent)] + rest);
      OneWriteBetweenReads(src, tgt, UpdateCall(sent), rest);
    }
  }

  /** Storing one object under its own key at target keeps the store's
      invariant and changes nothing else. */
  lemma WriteAtTargetOnly(s: State, s': State, target: NamespacedName, written: Option<ConfigMap>)
    requires Valid(s)
    requires written.Some? ==> KeyOf(written.value) == target
    requires written.Some? ==> written.value.meta.resourceVersion < s'.nextVersion
    requires s'.objects == if written.Some? then s.objects[target := written.value] else s.objects
    requires s.nextVersion <= s'.nextVersion
    ensures Valid(s') && NoOtherChange(s, s', target)
  {
  }

  /** A run keeps the store's invariant, deletes nothing and touches no object
      but the target. */
  lemma {:induction false} OnlyTargetChanges(s: State, cfg: Config)
    requires Valid(s)
    ensures var r := EnsureKubeletCAConfigMap(s, cfg);
            Valid(r.0) && NoOtherChange(s, r.0, NodeObsKubeletCAConfigMapName(cfg.targetNamespace))
  {
    var r := EnsureKubeletCAConfigMap(s, cfg);
    var src, tgt := SourceName(cfg), NodeObsKubeletCAConfigMapName(cfg.targetNamespace);
    if !(FaultAt(s, 0) == Pass && src in s.objects) {
      SourceUnavailable(s, cfg);
      WriteAtTargetOnly(s, r.0, tgt, None);
    } else if FaultAt(s, 1).Fail? && !IsNotFound(FaultAt(s, 1).err) {
      TargetReadFails(s, cfg);
      WriteAtTargetOnly(s, r.0, tgt, None);
    } else if tgt !in s.objects || FaultAt(s, 1).Fail? {
      CreateOnAbsence(s, cfg);
      var desired := DesiredKubeletCAConfigMap(s.objects[src], tgt);
      var created := FaultAt(s, 2) == Pass && tgt !in s.objects;
      WriteAtTargetOnly(s, r.0, tgt, if created then Some(Stamp(desired, s.nextVersion)) else None);
    } else if ConfigMapsEqual(s.objects[tgt], s.objects[src]) {
      NoWriteOnEquality(s, cfg);
      WriteAtTargetOnly(s, r.0, tgt, None);
    } else {
      UpdateOnDivergence(s, cfg);
      var sent := s.objects[tgt].(data := s.objects[src].data);
      WriteAtTargetOnly(s, r.0, tgt, if FaultAt(s, 2) == Pass then Some(Stamp(sent, s.nextVersion)) else None);
    }
  }

  /** A run that reports the target present and no error has converged: the
      object it returns is the one stored at the target key, and its data are
      the source's. */
  lemma {:induction false} SuccessMeansConverged(s: State, cfg: Config)
    requires Valid(s)
    ensures var r := EnsureKubeletCAConfigMap(s, cfg);
            r.1.found && r.1.err == None ==>
              && SourceName(cfg) in s.objects
              && NodeObsKubeletCAConfigMapName(cfg.targetNamespace) in r.0.objects
              && r.1.cm == Some(r.0.objects[NodeObsKubeletCAConfigMapName(cfg.targetNamespace)])
              && r.0.objects[NodeObsKubeletCAConfigMapName(cfg.targetNamespace)].data == s.objects[SourceName(cfg)].data
  {
    var src, tgt := SourceName(cfg), NodeObsKubeletCAConfigMapName(cfg.targetNamespace);
    if !(FaultAt(s, 0) == Pass && src in s.objects) {
      SourceUnavailable(s, cfg);
    } else if FaultAt(s, 1).Fail? && !IsNotFound(FaultAt(s, 1).err) {
      TargetReadFails(s, cfg);
    } else if tgt !in s.objects || FaultAt(s, 1).Fail? {
      CreateOnAbsence(s, cfg);
      CreateOnAbsenceResult(s, cfg);
    } else if ConfigMapsEqual(s.objects[tgt], s.objects[src]) {
      NoWriteOnEquality(s, cfg);
    } else {
      UpdateOnDivergence(s, cfg);
      UpdateOnDivergenceResult(s, cfg);
    }
  }

  /** With no failure injected and the source present, a run always converges. */
  lemma {:induction false} ConvergesWithoutFaults(s: State, cfg: Config)
    requires Valid(s) && s.faults == [] && SourceName(cfg) in s.objects
    ensures var r := EnsureKubeletCAConfigMap(s, cfg);
            && r.1.found && r.1.err == None
            && r.0.objects[NodeObsKubeletCAConfigMapName(cfg.targetNamespace)].data == s.objects[SourceName(cfg)].data
  {
    var src, tgt := SourceName(cfg), NodeObsKubeletCAConfigMapName(cfg.targetNamespace);
    if tgt !in s.objects {
      CreateOnAbsence(s, cfg);
      CreateOnAbsenceResult(s, cfg);
    } else if ConfigMapsEqual(s.objects[tgt], s.objects[src]) {
      NoWriteOnEquality(s, cfg);
    } else {
      UpdateOnDivergence(s, cfg);
      UpdateOnDivergenceResult(s, cfg);
    }
    SuccessMeansConverged(s, cfg);
  }

  /** No fault in the script pretends that an object is absent. */
  ghost predicate NoSpuriousNotFound(faults: seq<Fault>)
  {
    forall i | 0 <= i < |faults| :: !(faults[i].Fail? && IsNotFound(faults[i].err))
  }

  /** Idempotence: after a run that succeeded, a second run against the same
      objects (whatever failures it meets, short of a false NotFound) writes
      nothing, and when it succeeds it returns the same result. */
  lemma {:induction false} SecondRunWritesNothing(s: State, cfg: Config, faults: seq<Fault>)
    requires Valid(s)
    requires EnsureKubeletCAConfigMap(s, cfg).1.found && EnsureKubeletCAConfigMap(s, cfg).1.err == None
    requires NoSpuriousNotFound(faults)
    ensures var r1 := EnsureKubeletCAConfigMap(s, cfg);
            var s2 := r1.0.(faults := faults);
            var r2 := EnsureKubeletCAConfigMap(s2, cfg);
            && r2.0.objects == s2.objects
            && WriteCount(Issued(s2, r2.0)) == 0
            && (r2.1.err == None ==> r2.1 == r1.1)
  {
    var r1 := EnsureKubeletCAConfigMap(s, cfg);
    var s2 := r1.0.(faults := faults);
    var r2 := EnsureKubeletCAConfigMap(s2, cfg);
    var src, tgt := SourceName(cfg), NodeObsKubeletCAConfigMapName(cfg.targetNamespace);
    SuccessMeansConverged(s, cfg);
    OnlyTargetChanges(s, cfg);
    assert src in s2.objects && tgt in s2.objects;
    assert ConfigMapsEqual(s2.objects[tgt], s2.objects[src]) by {
      if src != tgt {
        assert s2.objects[src] == s.objects[src];
      }
    }
    assert FaultAt(s2, 0) == Pass ==> !(FaultAt(s2, 1).Fail? && IsNotFound(FaultAt(s2, 1).err)) by {
      if 1 < |faults| {
        assert !(faults[1].Fail? && IsNotFound(faults[1].err));
      }
    }
    if FaultAt(s2, 0) != Pass {
      assert !IsNotFound(FaultAt(s2, 0).err) by {
        assert !(faults[0].Fail? && IsNotFound(faults[0].err));
      }
      SourceUnavailable(s2, cfg);
    } else if FaultAt(s2, 1).Fail? {
      TargetReadFails(s2, cfg);
    } else {
      NoWriteOnEquality(s2, cfg);
    }
  }
}
