/** The reconciler's methods, which issue their calls one by one against a
    client object whose state they change. Each is proved to do exactly what
    the function of the same name in CAConfigMap computes, so every property
    proved of those functions holds of these methods. */
module CAConfigMapReconciler {
  import opened ConfigMaps
  import opened ApiStore
  import opened ApiClient
  import CAConfigMap

  class Reconciler {
    const config: CAConfigMap.Config
    const client: Client

    constructor (config: CAConfigMap.Config, client: Client)
      ensures this.config == config && this.client == client
    {
      this.config := config;
      this.client := client;
    }

    method CurrentKubeletCAConfigMap(name: NamespacedName) returns (found: bool, cm: Option<ConfigMap>, err: Option<Error>)
      modifies client
      ensures (client.State(), CAConfigMap.Outcome(found, cm, err))
              == CAConfigMap.CurrentKubeletCAConfigMap(old(client.State()), name)
    {
      var res := client.Get(name);
      match res
      case Err(e) =>
        if IsNotFound(e) {
          return false, None, None;
        }
        return false, None, Some(e);
      case Ok(c) =>
        return true, Some(c), None;
    }

    method CreateKubeletCAConfigMap(cm: ConfigMap) returns (err: Option<Error>)
      modifies client
      ensures (client.State(), err) == CAConfigMap.CreateKubeletCAConfigMap(old(client.State()), cm)
    {
      err := client.Create(cm);
    }

    method UpdateKubeletCAConfigMap(current: ConfigMap, desired: ConfigMap) returns (updated: bool, err: Option<Error>)
      modifies client
      ensures (client.State(), updated, err)
              == CAConfigMap.UpdateKubeletCAConfigMap(old(client.State()), current, desired)
    {
      if CAConfigMap.ConfigMapsEqual(current, desired) {
        return false, None;
      }
      var copy := current.(data := desired.data);
      err := client.Update(copy);
      if err.Some? {
        return false, err;
      }
      return true, None;
    }

    method EnsureKubeletCAConfigMap() returns (found: bool, cm: Option<ConfigMap>, err: Option<Error>)
      modifies client
      ensures (client.State(), CAConfigMap.Outcome(found, cm, err))
              == CAConfigMap.EnsureKubeletCAConfigMap(old(client.State()), config)
    {
      var srcName := CAConfigMap.SourceName(config);
      var sourceExists, source, srcErr := CurrentKubeletCAConfigMap(srcName);
      if srcErr.Some? {
        return false, None, srcErr;
      } else if !sourceExists {
        return false, None, None;
      }

      var targetName := CAConfigMap.NodeObsKubeletCAConfigMapName(config.targetNamespace);
      var targetExists, target, tgtErr := CurrentKubeletCAConfigMap(targetName);
      if tgtErr.Some? {
        return false, None, tgtErr;
      }

      var desired := CAConfigMap.DesiredKubeletCAConfigMap(source.value, targetName);

      if !targetExists {
        var createErr := CreateKubeletCAConfigMap(desired);
        if createErr.Some? {
          return false, None, createErr;
        }
        found, cm, err := CurrentKubeletCAConfigMap(targetName);
        return;
      }

      var updated, updateErr := UpdateKubeletCAConfigMap(target.value, desired);
      if updateErr.Some? {
        return true, target, updateErr;
      } else if updated {
        found, cm, err := CurrentKubeletCAConfigMap(targetName);
        return;
      }
      return true, target, None;
    }
  }
}
