/**
 * Package `handler`, handler/healthcheck.go: a registry of environment
 * variable names and the health check that reports the registered
 * variables that are set. The HTTP response itself is not modelled.
 */
module Healthcheck {
  import opened OsEnv

  /**
   * The report for a list of registered names: each name whose value is
   * non-empty, mapped to that value. Built in registry order, as the
   * handler's loop builds it.
   */
  function Report(keys: seq<string>, env: Env): (obj: map<string, string>)
    ensures obj.Keys == set k | k in keys && Getenv(env, k) != []
    ensures forall k :: k in obj ==> k in env && obj[k] == env[k]
  {
    if keys == [] then map[]
    else
      var obj := Report(keys[..|keys| - 1], env);
      var k := keys[|keys| - 1];
      assert forall j :: j in keys <==> j in keys[..|keys| - 1] || j == k;
      if Getenv(env, k) != [] then obj[k := Getenv(env, k)] else obj
  }

  /** The report depends only on which names are registered, not on their order or repetition. */
  lemma ReportDependsOnNamesOnly(keys1: seq<string>, keys2: seq<string>, env: Env)
    requires forall k :: k in keys1 <==> k in keys2
    ensures Report(keys1, env) == Report(keys2, env)
  {
    var r1, r2 := Report(keys1, env), Report(keys2, env);
    assert r1.Keys == r2.Keys;
  }

  /** Registering a name a second time leaves the report unchanged: duplicates give one entry. */
  lemma DuplicateRegistrationIgnored(keys: seq<string>, key: string, env: Env)
    requires key in keys
    ensures Report(keys + [key], env) == Report(keys, env)
  {
    ReportDependsOnNamesOnly(keys + [key], keys, env);
  }

  /** The registry `healthCheckEnv`, a package-level slice that only grows. */
  class Registry {
    var healthCheckEnv: seq<string>

    /** The registry starts with `GIT_COMMIT` alone. */
    constructor ()
      ensures healthCheckEnv == ["GIT_COMMIT"]
    {
      healthCheckEnv := ["GIT_COMMIT"];
    }

    /** `RegisterEnvVar`: append the name, duplicates included. */
    method RegisterEnvVar(key: string)
      modifies this
      ensures healthCheckEnv == old(healthCheckEnv) + [key]
    {
      healthCheckEnv := healthCheckEnv + [key];
    }

    /** `HealthCheckEnvironment`: the report for the registered names. */
    method HealthCheckEnvironment(env: Env) returns (obj: map<string, string>)
      ensures obj == Report(healthCheckEnv, env)
      ensures obj.Keys == set k | k in healthCheckEnv && Getenv(env, k) != []
      ensures forall k :: k in obj ==> obj[k] == Getenv(env, k)
    {
      obj := map[];
      for i := 0 to |healthCheckEnv|
        invariant obj == Report(healthCheckEnv[..i], env)
      {
        var k := healthCheckEnv[i];
        assert healthCheckEnv[..i + 1][..i] == healthCheckEnv[..i];
        var val := Getenv(env, k);
        if val != [] {
          obj := obj[k := val];
        }
      }
      assert healthCheckEnv[..|healthCheckEnv|] == healthCheckEnv;
    }
  }
}
