/** A value model of the remote object store the routine talks to through
    controller-runtime's client: objects by key, a counter for the
    resourceVersion it assigns, a script of injected failures (one entry is
    consumed by each remote call) and the log of calls issued so far. */
module ApiStore {
  import opened ConfigMaps

  datatype Error =
    | NotFound(name: NamespacedName)
    | AlreadyExists(name: NamespacedName)
    | Conflict(name: NamespacedName)
    /** Any other failure: the network, a timeout, authorisation, the server. */
    | Unavailable(reason: string)

  /** apimachinery's errors.IsNotFound. */
  predicate IsNotFound(e: Error)
  {
    e.NotFound?
  }

  datatype Result<+T> = Ok(value: T) | Err(error: Error)

  /** What the environment does to one remote call: let it through, or fail it. */
  datatype Fault = Pass | Fail(err: Error)

  datatype Call =
    | GetCall(name: NamespacedName)
    | CreateCall(obj: ConfigMap)
    | UpdateCall(obj: ConfigMap)
  {
    predicate IsWrite()
    {
      !GetCall?
    }
  }

  datatype State = State(
    objects: map<NamespacedName, ConfigMap>,
    nextVersion: nat,
    faults: seq<Fault>,
    calls: seq<Call>)

  /** The store's own invariant: every object is filed under its own key, and
      every resourceVersion handed out so far is below the next one, so a
      version is never handed out twice. */
  ghost predicate Valid(s: State)
  {
    forall k | k in s.objects :: KeyOf(s.objects[k]) == k && s.objects[k].meta.resourceVersion < s.nextVersion
  }

  /** The fault the i-th remote call from now will meet; an exhausted script passes. */
  function FaultAt(s: State, i: nat): Fault
  {
    if i < |s.faults| then s.faults[i] else Pass
  }

  /** The number of create and update calls in a call log. */
  function WriteCount(calls: seq<Call>): (n: nat)
    ensures n <= |calls|
    ensures n == 0 <==> forall i | 0 <= i < |calls| :: !calls[i].IsWrite()
  {
    if calls == [] then 0
    else (if calls[0].IsWrite() then 1 else 0) + WriteCount(calls[1..])
  }

  lemma {:induction false} WriteCountAppend(a: seq<Call>, b: seq<Call>)
    ensures WriteCount(a + b) == WriteCount(a) + WriteCount(b)
  {
    if a != [] {
      assert (a + b)[1..] == a[1..] + b;
      WriteCountAppend(a[1..], b);
    } else {
      assert a + b == b;
    }
  }

  /** The state after one more remote call is issued: it is logged and its
      fault consumed. Nothing else changes. */
  function Issue(s: State, c: Call): State
  {
    s.(faults := if s.faults == [] then [] else s.faults[1..], calls := s.calls + [c])
  }

  /** The object as the store keeps it after a write: with a fresh resourceVersion. */
  function Stamp(cm: ConfigMap, version: nat): ConfigMap
  {
    cm.(meta := cm.meta.(resourceVersion := version))
  }

  /** client.Get: read the object at name. */
  function Get(s: State, name: NamespacedName): (r: (State, Result<ConfigMap>))
    ensures r.0 == Issue(s, GetCall(name))
    ensures r.1.Ok? <==> FaultAt(s, 0) == Pass && name in s.objects
    ensures r.1.Ok? ==> r.1.value == s.objects[name]
    ensures r.1.Err? && FaultAt(s, 0) == Pass ==> r.1.error == NotFound(name)
    ensures FaultAt(s, 0).Fail? ==> r.1 == Err(FaultAt(s, 0).err)
  {
    var s' := Issue(s, GetCall(name));
    match FaultAt(s, 0)
    case Fail(e) => (s', Err(e))
    case Pass => if name in s.objects then (s', Ok(s.objects[name])) else (s', Err(NotFound(name)))
  }

  /** client.Create: file a new object under its own key; refused if the key is taken. */
  function Create(s: State, cm: ConfigMap): (r: (State, Option<Error>))
    ensures r.0.calls == s.calls + [CreateCall(cm)] && r.0.faults == Issue(s, CreateCall(cm)).faults
    ensures r.1 == None <==> FaultAt(s, 0) == Pass && KeyOf(cm) !in s.objects
    ensures r.1 == None ==> r.0.objects == s.objects[KeyOf(cm) := Stamp(cm, s.nextVersion)]
    ensures r.1 != None ==> r.0.objects == s.objects
    ensures r.0.nextVersion == if r.1 == None then s.nextVersion + 1 else s.nextVersion
    ensures FaultAt(s, 0) == Pass && KeyOf(cm) in s.objects ==> r.1 == Some(AlreadyExists(KeyOf(cm)))
    ensures FaultAt(s, 0).Fail? ==> r.1 == Some(FaultAt(s, 0).err)
    ensures Valid(s) ==> Valid(r.0)
    ensures Valid(s) && r.1 == None ==>
              forall k | k in s.objects :: s.objects[k].meta.resourceVersion != r.0.objects[KeyOf(cm)].meta.resourceVersion
  {
    var s' := Issue(s, CreateCall(cm));
    match FaultAt(s, 0)
    case Fail(e) => (s', Some(e))
    case Pass =>
      if KeyOf(cm) in s.objects then (s', Some(AlreadyExists(KeyOf(cm))))
      else
        (s'.(objects := s.objects[KeyOf(cm) := Stamp(cm, s.nextVersion)], nextVersion := s.nextVersion + 1), None)
  }

  /** client.Update: replace the object under its key; refused if it is absent
      or was changed since cm was read (its resourceVersion differs). */
  function Update(s: State, cm: ConfigMap): (r: (State, Option<Error>))
    ensures r.0.calls == s.calls + [UpdateCall(cm)] && r.0.faults == Issue(s, UpdateCall(cm)).faults
    ensures r.1 == None <==>
              FaultAt(s, 0) == Pass && KeyOf(cm) in s.objects &&
              s.objects[KeyOf(cm)].meta.resourceVersion == cm.meta.resourceVersion
    ensures r.1 == None ==> r.0.objects == s.objects[KeyOf(cm) := Stamp(cm, s.nextVersion)]
    ensures r.1 != None ==> r.0.objects == s.objects
    ensures r.0.nextVersion == if r.1 == None then s.nextVersion + 1 else s.nextVersion
    ensures FaultAt(s, 0) == Pass && KeyOf(cm) !in s.objects ==> r.1 == Some(NotFound(KeyOf(cm)))
    ensures FaultAt(s, 0) == Pass && KeyOf(cm) in s.objects &&
              s.objects[KeyOf(cm)].meta.resourceVersion != cm.meta.resourceVersion ==>
              r.1 == Some(Conflict(KeyOf(cm)))
    ensures FaultAt(s, 0).Fail? ==> r.1 == Some(FaultAt(s, 0).err)
    ensures Valid(s) ==> Valid(r.0)
    ensures Valid(s) && r.1 == None ==>
              forall k | k in s.objects :: s.objects[k].meta.resourceVersion != r.0.objects[KeyOf(cm)].meta.resourceVersion
  {
    var s' := Issue(s, UpdateCall(cm));
    var key := KeyOf(cm);
    match FaultAt(s, 0)
    case Fail(e) => (s', Some(e))
    case Pass =>
      if key !in s.objects then (s', Some(NotFound(key)))
      else if s.objects[key].meta.resourceVersion != cm.meta.resourceVersion then (s', Some(Conflict(key)))
      else (s'.(objects := s.objects[key := Stamp(cm, s.nextVersion)], nextVersion := s.nextVersion + 1), None)
  }
}
