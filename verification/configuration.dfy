/** Service configuration (models/configuration.go) and the step that
    publishes a loaded configuration into the process environment
    (utilities/configuration.go). The environment is a map; `os.Getenv`
    reads an unset variable as the empty string. */
module Configuration {
  import opened Wrappers

  datatype Configuration = Configuration(
    elasticEndpoint: string,
    clusterName: string,
    serverPort: string
  )

  type Env = map<string, string>

  const ElasticEndpointEnvName: string := "elastic_endpoint"
  const ClusterNameEnvName: string := "cluster_name"
  const ServerEnvName: string := "server_port"

  const DefaultElasticEndpoint: string := "http://127.0.0.1:9200"
  const DefaultClusterName: string := "usersg0"
  const DefaultServerEndpoint: string := "8080"

  const InvalidConfigurationMessage: string := "invalid configuration file"

  /** `os.Getenv`. */
  function Getenv(env: Env, key: string): (v: string)
    ensures key !in env ==> v == ""
    ensures key in env ==> v == env[key]
  {
    if key in env then env[key] else ""
  }

  /** The keys `os.Setenv` accepts on Unix: non-empty, with no `=` and no
      NUL byte. */
  predicate SettableKey(key: string) {
    key != "" && '=' !in key && '\0' !in key
  }

  /** `os.Setenv` on Unix: a key it does not accept, or a value holding a
      NUL byte, is refused with `EINVAL` and nothing is written; otherwise
      the variable is set and no other changes. */
  function Setenv(env: Env, key: string, value: string): (r: Env)
    ensures SettableKey(key) && '\0' !in value ==> Getenv(r, key) == value
    ensures !SettableKey(key) || '\0' in value ==> r == env
    ensures r.Keys <= env.Keys + {key} && env.Keys <= r.Keys
    ensures forall k :: k in env && k != key ==> r[k] == env[k]
  {
    if SettableKey(key) && '\0' !in value then env[key := value] else env
  }

  /** `(*Configuration).Validate`: refuses a configuration as soon as any
      one of the three settings is missing. */
  function Validate(config: Configuration): (ok: bool)
    ensures ok <==> config.elasticEndpoint != "" && config.clusterName != "" && config.serverPort != ""
  {
    !(config.serverPort == "" || config.clusterName == "" || config.elasticEndpoint == "")
  }

  /** The variable's value when it is set and non-empty, the default
      otherwise. */
  function EnvOr(env: Env, key: string, default: string): (v: string)
    requires default != ""
    ensures v != ""
    ensures v == default || (key in env && v == env[key])
    ensures key in env && env[key] != "" ==> v == env[key]
  {
    var value := Getenv(env, key);
    if value != "" then value else default
  }

  function GetElasticEndpoint(env: Env): (v: string)
    ensures v != ""
    ensures Getenv(env, ElasticEndpointEnvName) == "" ==> v == DefaultElasticEndpoint
    ensures Getenv(env, ElasticEndpointEnvName) != "" ==> v == env[ElasticEndpointEnvName]
  {
    EnvOr(env, ElasticEndpointEnvName, DefaultElasticEndpoint)
  }

  function GetClusterName(env: Env): (v: string)
    ensures v != ""
    ensures Getenv(env, ClusterNameEnvName) == "" ==> v == DefaultClusterName
    ensures Getenv(env, ClusterNameEnvName) != "" ==> v == env[ClusterNameEnvName]
  {
    EnvOr(env, ClusterNameEnvName, DefaultClusterName)
  }

  function GetServerEndpoint(env: Env): (v: string)
    ensures v != ""
    ensures Getenv(env, ServerEnvName) == "" ==> v == DefaultServerEndpoint
    ensures Getenv(env, ServerEnvName) != "" ==> v == env[ServerEnvName]
  {
    EnvOr(env, ServerEnvName, DefaultServerEndpoint)
  }

  /** The three variable names are keys `os.Setenv` accepts, and they are
      distinct. */
  lemma EnvNamesSettable()
    ensures SettableKey(ElasticEndpointEnvName) && SettableKey(ClusterNameEnvName) && SettableKey(ServerEnvName)
    ensures ElasticEndpointEnvName != ClusterNameEnvName && ClusterNameEnvName != ServerEnvName && ServerEnvName != ElasticEndpointEnvName
  {
  }

  /** What a variable reads as after `SetConfig` tried to set it to
      `value`: the value when `os.Setenv` accepts it, what it read as
      before when the value holds a NUL byte. */
  function Published(env: Env, key: string, value: string): string {
    if '\0' in value then Getenv(env, key) else value
  }

  /** The tail of `SetConfig` once the file is decoded: an invalid
      configuration is refused and the environment left alone; a valid one
      is written under the three variable names. The errors of `os.Setenv`
      are ignored, so a value it refuses leaves its variable as it was. */
  function PublishConfig(config: Configuration, env: Env): (r: Result<Env, string>)
    ensures r.Success? <==> Validate(config)
    ensures r.Failure? ==> r.error == InvalidConfigurationMessage
    ensures r.Success? ==> && Getenv(r.value, ElasticEndpointEnvName) == Published(env, ElasticEndpointEnvName, config.elasticEndpoint)
                           && Getenv(r.value, ClusterNameEnvName) == Published(env, ClusterNameEnvName, config.clusterName)
                           && Getenv(r.value, ServerEnvName) == Published(env, ServerEnvName, config.serverPort)
    ensures r.Success? ==> env.Keys <= r.value.Keys <= env.Keys + {ElasticEndpointEnvName, ClusterNameEnvName, ServerEnvName}
    ensures r.Success? ==> forall k :: k in env && k != ElasticEndpointEnvName && k != ClusterNameEnvName && k != ServerEnvName ==> r.value[k] == env[k]
  {
    if !Validate(config) then Failure(InvalidConfigurationMessage)
    else
      EnvNamesSettable();
      var env1 := Setenv(env, ElasticEndpointEnvName, config.elasticEndpoint);
      var env2 := Setenv(env1, ClusterNameEnvName, config.clusterName);
      Success(Setenv(env2, ServerEnvName, config.serverPort))
  }

  /** Publishing a valid configuration and reading it back through the
      getters returns exactly its fields, whatever the environment held. */
  lemma PublishThenGet(config: Configuration, env: Env)
    requires Validate(config)
    requires '\0' !in config.elasticEndpoint && '\0' !in config.clusterName && '\0' !in config.serverPort
    ensures PublishConfig(config, env).Success?
    ensures GetElasticEndpoint(PublishConfig(config, env).value) == config.elasticEndpoint
    ensures GetClusterName(PublishConfig(config, env).value) == config.clusterName
    ensures GetServerEndpoint(PublishConfig(config, env).value) == config.serverPort
  {
  }

  /** A setting holding a NUL byte is silently not written: after
      publishing, its getter returns what it returned before. */
  lemma PublishSkipsNul(config: Configuration, env: Env)
    requires Validate(config)
    ensures '\0' in config.elasticEndpoint ==> GetElasticEndpoint(PublishConfig(config, env).value) == GetElasticEndpoint(env)
    ensures '\0' in config.clusterName ==> GetClusterName(PublishConfig(config, env).value) == GetClusterName(env)
    ensures '\0' in config.serverPort ==> GetServerEndpoint(PublishConfig(config, env).value) == GetServerEndpoint(env)
  {
  }

  /** With none of the three variables set, every getter falls back to its
      default. */
  lemma DefaultsWhenUnset(env: Env)
    requires ElasticEndpointEnvName !in env && ClusterNameEnvName !in env && ServerEnvName !in env
    ensures GetElasticEndpoint(env) == "http://127.0.0.1:9200"
    ensures GetClusterName(env) == "usersg0"
    ensures GetServerEndpoint(env) == "8080"
  {
  }
}
