/** The store as an object whose fields every call updates in place: an
    in-memory stand-in for the controller-runtime client. Each method is
    proved to do exactly what the value model in ApiStore says. */
module ApiClient {
  import opened ConfigMaps
  import opened ApiStore

  class Client {
    var objects: map<NamespacedName, ConfigMap>
    var nextVersion: nat
    var faults: seq<Fault>
    var calls: seq<Call>

    function State(): State
      reads this
    {
      ApiStore.State(objects, nextVersion, faults, calls)
    }

    constructor (objects: map<NamespacedName, ConfigMap>, nextVersion: nat, faults: seq<Fault>)
      requires forall k | k in objects :: KeyOf(objects[k]) == k && objects[k].meta.resourceVersion < nextVersion
      ensures State() == ApiStore.State(objects, nextVersion, faults, [])
      ensures Valid(State())
    {
      this.objects := objects;
      this.nextVersion := nextVersion;
      this.faults := faults;
      this.calls := [];
    }

    /** Log the call and take its fault off the script. */
    method Issue(c: Call) returns (fault: Fault)
      modifies this
      ensures fault == FaultAt(old(State()), 0)
      ensures State() == ApiStore.Issue(old(State()), c)
    {
      fault := if faults == [] then Pass else faults[0];
      faults := if faults == [] then [] else faults[1..];
      calls := calls + [c];
    }

    method Get(name: NamespacedName) returns (res: Result<ConfigMap>)
      modifies this
      ensures (State(), res) == ApiStore.Get(old(State()), name)
    {
      var fault := Issue(GetCall(name));
      match fault
      case Fail(e) =>
        res := Err(e);
      case Pass =>
        if name in objects {
          res := Ok(objects[name]);
        } else {
          res := Err(NotFound(name));
        }
    }

    method Create(cm: ConfigMap) returns (err: Option<Error>)
      modifies this
      ensures (State(), err) == ApiStore.Create(old(State()), cm)
    {
      var fault := Issue(CreateCall(cm));
      var key := KeyOf(cm);
      match fault
      case Fail(e) =>
        err := Some(e);
      case Pass =>
        if key in objects {
          err := Some(AlreadyExists(key));
        } else {
          objects := objects[key := Stamp(cm, nextVersion)];
          nextVersion := nextVersion + 1;
          err := None;
        }
    }

    method Update(cm: ConfigMap) returns (err: Option<Error>)
      modifies this
      ensures (State(), err) == ApiStore.Update(old(State()), cm)
    {
      var fault := Issue(UpdateCall(cm));
      var key := KeyOf(cm);
      match fault
      case Fail(e) =>
        err := Some(e);
      case Pass =>
        if key !in objects {
          err := Some(NotFound(key));
        } else if objects[key].meta.resourceVersion != cm.meta.resourceVersion {
          err := Some(Conflict(key));
        } else {
          objects := objects[key := Stamp(cm, nextVersion)];
          nextVersion := nextVersion + 1;
          err := None;
        }
    }
  }
}
