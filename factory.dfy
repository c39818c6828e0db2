/** WeatherSdkFactory: the registry of SDK instances, one per API key.

    The registry is a static map in the program; here it is the one field of
    a factory object. The registry's lock is not modelled: every operation
    runs to completion before the next one starts. */
module Factory {
  import opened Common
  import opened Cache
  import opened ApiClient
  import opened Sdk

  /** The InvalidApiKeyException for a null or blank key. */
  const BlankKeyError := Error(InvalidApiKey, "API key cannot be null or empty.")

  /** The InvalidApiKeyException of a removal that finds no instance. */
  const NoInstanceError := Error(InvalidApiKey, "No instance found for the given API key.")

  /** needsUpdate: whether the stored instance was built with another mode or
      another polling interval than the ones now asked for. */
  function NeedsUpdate(existing: WeatherSdkImpl, mode: Mode, interval: int): (r: bool)
    ensures !r <==> existing.mode == mode && existing.interval == interval
  {
    existing.mode != mode || existing.interval != interval
  }

  /** Re-registering a removed key is the same as overwriting it. */
  lemma UpdateAfterRemove(m: map<string, WeatherSdkImpl>, k: string, v: WeatherSdkImpl)
    ensures (m - {k})[k := v] == m[k := v]
  {
    assert (m - {k})[k := v].Keys == m[k := v].Keys;
  }

  class WeatherSdkFactory {
    var instances: map<string, WeatherSdkImpl>

    /** Every key is non-blank and maps to a valid instance built for that
        key, and instances under different keys have different caches. */
    ghost predicate Valid()
      reads this, instances.Values, set s | s in instances.Values :: s.cache
    {
      && (forall k :: k in instances ==>
            && !IsBlank(k) && instances[k].client.config.apiKey == k && instances[k].Valid())
      && (forall k1, k2 :: k1 in instances && k2 in instances && k1 != k2 ==>
            instances[k1].cache != instances[k2].cache)
    }

    /** What a call for `apiKey` may change: the registry and, when the key
        is registered, what shutting its instance down changes (the
        instance, its cache and its updater, but not its client). */
    function Frame(apiKey: string): set<object>
      reads this, if apiKey in instances then {instances[apiKey]} else {}
    {
      {this} + if apiKey !in instances then {}
               else var sdk := instances[apiKey];
                 {sdk, sdk.cache} + if sdk.updater == null then {} else {sdk.updater}
    }

    constructor ()
      ensures Valid() && instances == map[]
    {
      instances := map[];
    }

    /** Instances under different keys share no object, so an operation on
        one cannot change another. */
    lemma DisjointFootprints(k1: string, k2: string)
      requires Valid() && k1 in instances && k2 in instances && k1 != k2
      ensures instances[k1].Footprint() !! instances[k2].Footprint()
    {
      DistinctInstances(k1, k2);
      var a, b := instances[k1], instances[k2];
      assert a.Valid() && b.Valid();
      assert a.client != b.client by {
        assert a.client.config.apiKey == k1 && b.client.config.apiKey == k2;
      }
    }

    /** Different keys are served by different instances. */
    lemma DistinctInstances(k1: string, k2: string)
      requires Valid() && k1 in instances && k2 in instances && k1 != k2
      ensures instances[k1] != instances[k2]
    {
      assert instances[k1].client.config.apiKey == k1;
      assert instances[k2].client.config.apiKey == k2;
    }

    /** createNewInstance: build an instance and register it under the key;
        a configuration the instance refuses registers nothing. */
    method CreateNewInstance(apiKey: string, mode: Mode, interval: int, network: (Request, int) -> Exchange)
      returns (r: Result<WeatherSdkImpl>)
      requires Valid() && !IsBlank(apiKey)
      modifies this
      ensures Valid()
      ensures r.Fail? <==> ConfigError(apiKey, mode, interval).Some?
      ensures r.Fail? ==> r.error == ConfigError(apiKey, mode, interval).value && instances == old(instances)
      ensures r.Ok? ==> fresh(r.value.Footprint()) && r.value.Built(apiKey, mode, interval)
                        && instances == old(instances)[apiKey := r.value]
    {
      r := WeatherSdkImpl.Create(apiKey, mode, interval, network);
      if r.Ok? {
        var sdk := r.value;
        ghost var before := instances;
        instances := instances[apiKey := sdk];
        forall k | k in instances && k != apiKey
          ensures instances[k] == before[k] && instances[k].cache != sdk.cache
        {
          assert before[k].cache in before[k].Footprint();
        }
      }
    }

    /** removeInstance: unregister the key's instance and shut it down; a
        blank key or a key with no instance fails and changes nothing. */
    method RemoveInstance(apiKey: string) returns (r: Result<()>)
      requires Valid()
      modifies Frame(apiKey)
      ensures Valid()
      ensures forall k :: k in old(instances) && k != apiKey ==>
        && k in instances && instances[k] == old(instances[k])
        && unchanged(instances[k], instances[k].cache, instances[k].client)
        && (instances[k].updater != null ==> unchanged(instances[k].updater))
      ensures IsBlank(apiKey) ==> r == Fail(BlankKeyError) && apiKey !in instances && unchanged(this)
      ensures !IsBlank(apiKey) && apiKey !in old(instances) ==> r == Fail(NoInstanceError) && unchanged(this)
      ensures !IsBlank(apiKey) && apiKey in old(instances) ==>
        var removed := old(instances[apiKey]);
        && r == Ok(())
        && instances == old(instances) - {apiKey}
        && removed.isShutdown && removed.updater == null && removed.Valid()
        && unchanged(removed.client)
        && (old(removed.isShutdown) ==> unchanged(removed, removed.cache))
        && (!old(removed.isShutdown) ==>
              && removed.cache.Model() == Empty
              && (old(removed.updater) != null ==> !old(removed.updater).scheduled))
    {
      if IsBlank(apiKey) {
        return Fail(BlankKeyError);
      }
      if apiKey !in instances {
        return Fail(NoInstanceError);
      }
      Unregister(apiKey);
      return Ok(());
    }

    /** The present-key path of removeInstance: drop the key from the
        registry, then shut its instance down. */
    method Unregister(apiKey: string)
      requires Valid() && apiKey in instances
      modifies Frame(apiKey)
      ensures Valid()
      ensures forall k :: k in old(instances) && k != apiKey ==>
        && k in instances && instances[k] == old(instances[k])
        && unchanged(instances[k], instances[k].cache, instances[k].client)
        && (instances[k].updater != null ==> unchanged(instances[k].updater))
      ensures
        var removed := old(instances[apiKey]);
        && instances == old(instances) - {apiKey}
        && removed.isShutdown && removed.updater == null && removed.Valid()
        && unchanged(removed.client)
        && (old(removed.isShutdown) ==> unchanged(removed, removed.cache))
        && (!old(removed.isShutdown) ==>
              && removed.cache.Model() == Empty
              && (old(removed.updater) != null ==> !old(removed.updater).scheduled))
    {
      ghost var before := instances;
      var instance := instances[apiKey];
      forall k | k in before && k != apiKey
        ensures before[k] != instance && before[k].cache != instance.cache
        ensures before[k].updater != null ==> before[k].updater != instance.updater
      {
        DistinctInstances(k, apiKey);
      }
      instances := instances - {apiKey};
      instance.Shutdown();
      forall k | k in before && k != apiKey
        ensures k in instances && instances[k] == before[k]
        ensures unchanged(before[k], before[k].cache, before[k].client)
        ensures before[k].updater != null ==> unchanged(before[k].updater)
      {
      }
    }

    /** The replace path of getInstance: the stored instance is removed
        and shut down, then a new one is built for the key. */
    method Replace(apiKey: string, mode: Mode, interval: int, network: (Request, int) -> Exchange)
      returns (r: Result<WeatherSdkImpl>)
      requires Valid() && !IsBlank(apiKey) && apiKey in instances
      modifies Frame(apiKey)
      ensures Valid()
      ensures forall k :: k in old(instances) && k != apiKey ==>
        && k in instances && instances[k] == old(instances[k])
        && unchanged(instances[k], instances[k].cache, instances[k].client)
        && (instances[k].updater != null ==> unchanged(instances[k].updater))
      ensures var removed := old(instances[apiKey]);
        && removed.isShutdown && removed.updater == null && removed.Valid()
        && unchanged(removed.client)
        && (old(removed.isShutdown) ==> unchanged(removed, removed.cache))
        && (!old(removed.isShutdown) ==>
              && removed.cache.Model() == Empty
              && (old(removed.updater) != null ==> !old(removed.updater).scheduled))
      ensures r.Fail? <==> ConfigError(apiKey, mode, interval).Some?
      ensures r.Fail? ==> r.error == ConfigError(apiKey, mode, interval).value && instances == old(instances) - {apiKey}
      ensures r.Ok? ==> fresh(r.value.Footprint()) && r.value.Built(apiKey, mode, interval)
                        && instances == old(instances)[apiKey := r.value]
    {
      ghost var before := instances;
      var removed := RemoveInstance(apiKey);
      r := CreateNewInstance(apiKey, mode, interval, network);
      if r.Ok? {
        UpdateAfterRemove(before, apiKey, r.value);
      }
    }

    /** getInstance: the registered instance when its mode and interval are
        the ones asked for; otherwise the old instance (if any) is removed
        and shut down, and a new one is built and registered. */
    method GetInstance(apiKey: string, mode: Mode, interval: int, network: (Request, int) -> Exchange)
      returns (r: Result<WeatherSdkImpl>)
      requires Valid()
      modifies Frame(apiKey)
      ensures Valid()
      ensures IsBlank(apiKey) ==> r == Fail(BlankKeyError) && apiKey !in instances && unchanged(this)
      ensures !IsBlank(apiKey) && apiKey in old(instances) && !NeedsUpdate(old(instances[apiKey]), mode, interval) ==>
        && r == Ok(old(instances[apiKey]))
        && unchanged(this, r.value, r.value.cache, r.value.client)
        && (r.value.updater != null ==> unchanged(r.value.updater))
      ensures r.Ok? ==> apiKey in instances && instances[apiKey] == r.value && r.value.Valid()
      ensures forall k :: k in old(instances) && k != apiKey ==>
        && k in instances && instances[k] == old(instances[k])
        && unchanged(instances[k], instances[k].cache, instances[k].client)
        && (instances[k].updater != null ==> unchanged(instances[k].updater))
      ensures !IsBlank(apiKey) && apiKey in old(instances) && NeedsUpdate(old(instances[apiKey]), mode, interval) ==>
        var removed := old(instances[apiKey]);
        && removed.isShutdown && removed.updater == null && removed.Valid()
        && unchanged(removed.client)
        && (old(removed.isShutdown) ==> unchanged(removed, removed.cache))
        && (!old(removed.isShutdown) ==>
              && removed.cache.Model() == Empty
              && (old(removed.updater) != null ==> !old(removed.updater).scheduled))
      ensures !IsBlank(apiKey) && (apiKey in old(instances) ==> NeedsUpdate(old(instances[apiKey]), mode, interval)) ==>
        && (r.Fail? <==> ConfigError(apiKey, mode, interval).Some?)
        && (r.Fail? ==> r.error == ConfigError(apiKey, mode, interval).value && instances == old(instances) - {apiKey})
        && (r.Ok? ==> fresh(r.value.Footprint()) && r.value.Built(apiKey, mode, interval)
                      && instances == old(instances)[apiKey := r.value])
    {
      if IsBlank(apiKey) {
        return Fail(BlankKeyError);
      }
      if apiKey in instances {
        var existing := instances[apiKey];
        if !NeedsUpdate(existing, mode, interval) {
          return Ok(existing);
        }
        r := Replace(apiKey, mode, interval, network);
      } else {
        assert instances - {apiKey} == instances;
        r := CreateNewInstance(apiKey, mode, interval, network);
      }
    }
  }
}
