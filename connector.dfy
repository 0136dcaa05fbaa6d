/** What the watcher hands to the connector child process: its command line,
    its environment and its placeholder configuration file. */
module Connector {
  import opened Wrappers
  import Text

  const CLIENT_PATH: string := "/app/aws-iot-device-client"
  /** The placeholder configuration file, relative to the working directory. */
  const CONFIG_PATH: string := "dummy_config.json"
  /** The connector's lock directory, reset before every start. */
  const LOCK_FILE_PATH: string := "/app/lock/"
  const TOKEN_VAR: string := "AWSIOT_TUNNEL_ACCESS_TOKEN"
  const LOCK_VAR: string := "LOCK_FILE_PATH"
  /** Seconds slept after asking the previous child to terminate. */
  const GRACE_SECONDS: nat := 5
  const ENDPOINT_PREFIX: string := "data.tunneling.iot."
  const ENDPOINT_SUFFIX: string := ".amazonaws.com"

  /** The placeholder configuration: every key the connector insists on, each
      with a value it never uses (the real values come from the command line). */
  const CONFIG_PLACEHOLDER: string := "not_needed_see_argv"
  const DUMMY_CONFIG: map<string, string> :=
    map["endpoint" := CONFIG_PLACEHOLDER, "cert" := CONFIG_PLACEHOLDER, "key" := CONFIG_PLACEHOLDER,
        "root-ca" := CONFIG_PLACEHOLDER, "thing-name" := CONFIG_PLACEHOLDER]

  /** The tunneling data-plane host of a region; the region can be read back from it. */
  function Endpoint(region: string): (host: string)
    ensures Text.Unwrap(host, ENDPOINT_PREFIX, ENDPOINT_SUFFIX) == Some(region)
  {
    Text.UnwrapWrap(ENDPOINT_PREFIX, region, ENDPOINT_SUFFIX);
    ENDPOINT_PREFIX + region + ENDPOINT_SUFFIX
  }

  /** Distinct regions get distinct endpoints. */
  lemma EndpointInjective(a: string, b: string)
    ensures Endpoint(a) == Endpoint(b) ==> a == b
  {
  }

  /** The fixed 14-word connector command line for one tunnel session. */
  function BuildCmd(region: string, service: string): (cmd: seq<string>)
    ensures |cmd| == 14 && cmd[0] == CLIENT_PATH
    ensures cmd[4] == region && cmd[6] == service
    ensures Text.Unwrap(cmd[8], ENDPOINT_PREFIX, ENDPOINT_SUFFIX) == Some(region)
    ensures cmd[11] == CONFIG_PATH
    ensures "--tunneling-disable-notification" in cmd
  {
    [ CLIENT_PATH,
      "--enable-tunneling", "true",
      "--tunneling-region", region,
      "--tunneling-service", service,
      "--endpoint", Endpoint(region),
      "--tunneling-disable-notification",
      "--config-file", CONFIG_PATH,
      "--log-level", "DEBUG" ]
  }

  /** Reference reading of a command line, as an option parser sees it: the
      word that follows the first occurrence of `flag`. */
  function FlagValue(args: seq<string>, flag: string): Option<string>
  {
    FlagValueFrom(args, flag, 0)
  }

  /** `FlagValue` restricted to the words from index `i` on. */
  function FlagValueFrom(args: seq<string>, flag: string, i: nat): Option<string>
    decreases |args| - i
  {
    if i + 1 >= |args| then None
    else if args[i] == flag then Some(args[i + 1])
    else FlagValueFrom(args, flag, i + 1)
  }

  /** A word that an option parser takes for a flag. */
  predicate IsFlag(w: string) {
    |w| >= 2 && w[..2] == "--"
  }

  /** `FlagValue` finds the word after the first occurrence of the flag. */
  lemma {:induction false} FlagValueAt(args: seq<string>, flag: string, i: nat, k: nat)
    requires i <= k && k + 1 < |args| && args[k] == flag
    requires forall j :: i <= j < k ==> args[j] != flag
    ensures FlagValueFrom(args, flag, i) == Some(args[k + 1])
    decreases k - i
  {
    if i < k {
      FlagValueAt(args, flag, i + 1, k);
    }
  }

  /** As long as neither the region nor the service looks like a flag, the
      connector reads back exactly the session the command line was built for. */
  lemma {:induction false} ConnectorReadsSession(region: string, service: string)
    requires !IsFlag(region) && !IsFlag(service)
    ensures var cmd := BuildCmd(region, service);
      && FlagValue(cmd, "--enable-tunneling") == Some("true")
      && FlagValue(cmd, "--tunneling-region") == Some(region)
      && FlagValue(cmd, "--tunneling-service") == Some(service)
      && FlagValue(cmd, "--endpoint") == Some(Endpoint(region))
      && FlagValue(cmd, "--config-file") == Some(CONFIG_PATH)
      && FlagValue(cmd, "--log-level") == Some("DEBUG")
  {
    var cmd := BuildCmd(region, service);
    EndpointIsNoFlag(region);
    FirstFlagValue(cmd, "--enable-tunneling", 1);
    FirstFlagValue(cmd, "--tunneling-region", 3);
    FirstFlagValue(cmd, "--tunneling-service", 5);
    FirstFlagValue(cmd, "--endpoint", 7);
    FirstFlagValue(cmd, "--config-file", 10);
    FirstFlagValue(cmd, "--log-level", 12);
  }

  /** `FlagValue` reads the word after `flag` when position `k` holds its
      first occurrence. */
  lemma FirstFlagValue(args: seq<string>, flag: string, k: nat)
    requires k + 1 < |args| && args[k] == flag && flag !in args[..k]
    ensures FlagValue(args, flag) == Some(args[k + 1])
  {
    forall j | 0 <= j < k ensures args[j] != flag {
      assert args[j] == args[..k][j];
    }
    FlagValueAt(args, flag, 0, k);
  }

  lemma {:induction false} EndpointIsNoFlag(region: string)
    ensures !IsFlag(Endpoint(region))
  {
    var host := Endpoint(region);
    assert host == ENDPOINT_PREFIX + region + ENDPOINT_SUFFIX;
    assert host[0] == 'd';
    assert |host| >= 2 ==> host[..2][0] == 'd';
  }

  /** The command line for region "TEST-Region" and service "TEST-Service". */
  lemma ExampleCommandLine()
    ensures BuildCmd("TEST-Region", "TEST-Service") == [
      "/app/aws-iot-device-client",
      "--enable-tunneling", "true",
      "--tunneling-region", "TEST-Region",
      "--tunneling-service", "TEST-Service",
      "--endpoint", "data.tunneling.iot.TEST-Region.amazonaws.com",
      "--tunneling-disable-notification",
      "--config-file", "dummy_config.json",
      "--log-level", "DEBUG"]
  {
    assert Endpoint("TEST-Region") == "data.tunneling.iot.TEST-Region.amazonaws.com" by {
      assert ENDPOINT_PREFIX + "TEST-Region" == "data.tunneling.iot.TEST-Region";
    }
  }

  /** The child's environment: the inherited one, plus the access token and
      the lock directory, each overriding an inherited value of that name. */
  function ChildEnv(env: map<string, string>, token: string): (child: map<string, string>)
    ensures child.Keys == env.Keys + {TOKEN_VAR, LOCK_VAR}
    ensures child[TOKEN_VAR] == token && child[LOCK_VAR] == LOCK_FILE_PATH
    ensures forall k :: k in env && k != TOKEN_VAR && k != LOCK_VAR ==> child[k] == env[k]
  {
    env[TOKEN_VAR := token][LOCK_VAR := LOCK_FILE_PATH]
  }

  /** Whatever token or lock path the watcher itself inherited is overridden:
      the child's environment does not depend on inherited values of the two
      variables the watcher sets. */
  lemma ChildEnvOverridesInherited(env: map<string, string>, inheritedToken: string, inheritedLock: string, token: string)
    ensures ChildEnv(env[TOKEN_VAR := inheritedToken][LOCK_VAR := inheritedLock], token) == ChildEnv(env, token)
  {
  }
}
