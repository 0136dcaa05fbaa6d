# Secure tunneling notification watcher — Dafny model

The watcher runs as a Greengrass component. It subscribes to the device's
tunnel-notification topic. For each notification it brings up one
`aws-iot-device-client` connector child, configured for the notified region
and service and given the access token. A later notification replaces the
previous child. This project models that watcher: `StreamHandler.__init__` and
`StreamHandler.on_stream_event`, the single-slot handler for notifications, and
the environment check and topic construction of `init_watcher`.

The model is split into seven modules:

- `Wrappers` (wrappers.dfy): the `Option` type.
- `Text` (text.dfy): `Unwrap` reads the middle of a string that has a fixed
  prefix and suffix. `UnwrapWrap` proves that it inverts the wrapping.
- `JsonValue` (json_value.dfy): the JSON values `json.loads` yields. It also
  models Python's `x[0]` on such a value: a list gives its first item, a string
  gives its first character, and everything else raises.
- `Connector` (connector.dfy): what the child is handed, all pure: the fixed
  14-word command line, the endpoint host, the child environment and the
  placeholder configuration. `FlagValue` is an independent reference reading
  of the command line: the word after a flag, the way an option parser reads it.
- `Session` (session.dfy): one pass of the handler as a specification
  function, `Step`. It takes the tracked child, the payload, the inherited
  environment and a `World`, and gives the effects, the new tracked child and
  the `Outcome`. The `World` holds what the outside world answers: the `poll()`
  result, whether the configuration file can be written, whether the lock
  directory can be reset, the child that the launch call returns, if any, and
  whether the reaper thread of that child can be started.
  The `Outcome` says which message the pass logs.
- `SessionProperties` (session_properties.dfy): the lemmas about `Step`.
- `SecureTunnelWatcher` (secure_tunnel_watcher.dfy): the `StreamHandler`
  class, with the tracked child `proc` and the effect `trace`, and start-up.
  `OnStreamEvent` is imperative, like the source: an early-returning loop over
  the required fields, then effects recorded one by one. It is proved equal to
  `Step`. The class invariant `Valid()` says that `proc` is always the child
  started most recently.

Effects are recorded once they have completed:
`WriteConfig`, `Terminate`, `Sleep(5)`, `ResetLock`, `Spawn(cmd, env, child)`
and `StartReaper`. A step that raises records nothing and ends the pass. The
new child is tracked before its reaper is started, so a reaper that cannot be
started leaves the launched child tracked while the pass logs a failure.

## Model

| member | source | states |
|---|---|---|
| `JsonValue.Index0` | src/secure_tunnel_watcher.py:60 | `services[0]` gives the first item of a non-empty list or the first character of a non-empty string. It raises (`None`) for an empty list or string, an object and every scalar. |
| `Connector.Endpoint` | src/secure_tunnel_watcher.py:61 | The endpoint host wraps the region in the fixed tunneling prefix and suffix. The region can be read back from it. |
| `Connector.EndpointInjective` | src/secure_tunnel_watcher.py:61 | Distinct regions give distinct endpoint hosts. |
| `Connector.BuildCmd` | src/secure_tunnel_watcher.py:56-65 | The command line has 14 words and starts with the connector binary. The region is at position 4 and the service at position 6. Position 8 is the endpoint of that region and position 11 the placeholder configuration file. `--tunneling-disable-notification` is present. |
| `Connector.ConnectorReadsSession` | src/secure_tunnel_watcher.py:56-65 | If neither the region nor the service looks like a flag, reading the command line flag by flag gives back `true`, the region, the service, the region's endpoint, the configuration path and `DEBUG`. |
| `Connector.ExampleCommandLine` | tests/test_secure_tunnel_watcher.py:49-58 | The command line for `TEST-Region`/`TEST-Service` is exactly the literal list the test expects. |
| `Connector.ChildEnv` | src/secure_tunnel_watcher.py:41-43 | The child environment has the inherited keys plus the token and lock-path variables. The token variable holds the token and the lock variable holds `/app/lock/`. Every other inherited key keeps its value. |
| `Connector.ChildEnvOverridesInherited` | src/secure_tunnel_watcher.py:41-43 | The child environment does not depend on any token or lock path the watcher inherited: those values are overridden, and the rest of the environment is kept. |
| `Session.FirstMissing` | src/secure_tunnel_watcher.py:35-38 | The result is `None` exactly when every required field is present. Otherwise it is the position of a missing field, and all fields before it are present. |
| `Session.NeedsTerminate` | src/secure_tunnel_watcher.py:67 | The previous child is stopped only when one is tracked. A tracked child that already exited is stopped exactly when its exit code is 0, because the poll answer is tested for falsiness. |
| `Session.Invocation` | src/secure_tunnel_watcher.py:77-79 | There is an invocation exactly when the region, the service and the token are all strings (joining or launching raises otherwise). The command line has the region at position 4 and the service at position 6, and the environment holds the token. |
| `Session.Stop` | src/secure_tunnel_watcher.py:67-70 | `Terminate(h)` is among the effects exactly when `h` is the tracked child and the poll answer calls for termination. The 5-second Sleep is among them under exactly the same condition, and there are no other effects. |
| `Session.Restart` | src/secure_tunnel_watcher.py:72-84 | `proc` becomes the launched child exactly when the lock is reset, every argument is a string and the launch call returns a child; otherwise it is unchanged. The pass reports a start exactly when, in addition, the reaper thread starts. All effects are lock, launch or reaper effects. |
| `Session.Replace` | src/secure_tunnel_watcher.py:56-70 | When `services[0]` raises, nothing happens and `proc` is unchanged. Otherwise the stop of the previous child comes before everything else. `proc` is either unchanged or the launched child, and a reported start names it. |
| `Session.Launch` | src/secure_tunnel_watcher.py:40-54 | There are no effects exactly when the configuration file cannot be written; otherwise the first effect writes it. `proc` is either unchanged or the launched child, and a reported start names it. |
| `Session.Step` | src/secure_tunnel_watcher.py:25-84 | After any pass, `proc` is either the old child or the child the launch call returned, and a reported start tracks that child. Any effects begin with the configuration write. |
| `SessionProperties.InvalidPayloadIsIgnored` | src/secure_tunnel_watcher.py:26-33 | A payload that cannot be decoded or parsed gives no effects, leaves `proc` unchanged and logs the invalid-payload message. |
| `SessionProperties.IncompleteEventIsIgnored` | src/secure_tunnel_watcher.py:35-38 | A message missing a required field gives no effects: no config write, no terminate and no start. `proc` is unchanged. The message names the first missing field in checking order. |
| `SessionProperties.StartedIff` | src/secure_tunnel_watcher.py:40-84 | A start is reported exactly when every stage succeeds, including the reaper thread, and it names the child the launch call returned. That child is tracked afterwards whenever the launch call returned it, even when its reaper then failed; otherwise `proc` keeps its old value. |
| `SessionProperties.StartedTrace` | src/secure_tunnel_watcher.py:41-80 | The effects of a successful pass, in order: WriteConfig, then Terminate+Sleep only if needed, then ResetLock, then Spawn with `BuildCmd(region, services[0])` and `ChildEnv(env, token)`, then StartReaper. |
| `SessionProperties.TerminateIff` | src/secure_tunnel_watcher.py:67-70 | `Terminate(h)` happens exactly when the pass gets past building the command, `h` is the tracked child, and its poll answer is falsy. |
| `SessionProperties.ExitedChildTerminatedOnlyOnZero` | src/secure_tunnel_watcher.py:67 | A tracked child that already exited is still terminated and slept on when its exit code is 0, and only then. |
| `SessionProperties.EffectOrder` | src/secure_tunnel_watcher.py:45-80 | In every pass, WriteConfig comes first. Each Terminate is followed at once by the 5-second Sleep, and each Sleep comes right after a Terminate. Terminate comes before every ResetLock, Spawn and StartReaper. |
| `SessionProperties.AtMostOneSpawn` | src/secure_tunnel_watcher.py:79 | No pass has more than one Spawn effect. |
| `SessionProperties.NoSpawnWithoutLaunch` | src/secure_tunnel_watcher.py:40-84 | A pass that does not get as far as a launch call returning a child reports no start, has no Spawn and no StartReaper, and `proc` keeps its previous value. This holds even after a terminate, for example when the lock reset or the launch fails. |
| `SessionProperties.ReaperFailureTrace` | src/secure_tunnel_watcher.py:79-84 | When the child is launched but its reaper thread cannot be started, the pass reports the failure, yet the new child stays tracked. The effects are those of a successful pass without StartReaper. |
| `SessionProperties.BuildFailureSparesPreviousChild` | src/secure_tunnel_watcher.py:56-70 | For a complete notification whose configuration write succeeds, if `services[0]` raises then the pass writes the configuration file and does nothing else. The old child is neither terminated nor dropped, and the service failure is reported. |
| `SessionProperties.SlotHoldsLastSpawn` | src/secure_tunnel_watcher.py:79 | If `proc` is the child of the last Spawn in the trace before a pass, it still is after the pass. |
| `SessionProperties.RepeatedNotificationReplaces` | src/secure_tunnel_watcher.py:67-79 | The same notification delivered twice: if the first started a child that is still running, the second writes the config and then terminates that child and sleeps, before anything else. |
| `SessionProperties.ExampleNotification` | tests/test_secure_tunnel_watcher.py:23-60 | The test's notification has exactly four effects, so exactly one Spawn. It starts one child, with the expected literal command line and `AWSIOT_TUNNEL_ACCESS_TOKEN` set to `foobar`. |
| `SessionProperties.ExampleLaunchError` | tests/test_secure_tunnel_watcher.py:101-125 | With `services` given as a string, the service is its first character. A raising launch call is swallowed and no child is tracked. |
| `SecureTunnelWatcher.StreamHandler.constructor` | src/secure_tunnel_watcher.py:21-23 | A new handler tracks no child, has an empty trace and satisfies the invariant. |
| `SecureTunnelWatcher.StreamHandler.OnStreamEvent` | src/secure_tunnel_watcher.py:25-84 | The imperative handler (parse result, field loop, then start) appends exactly `Step`'s effects to the trace, sets `proc` and returns `Step`'s outcome. It keeps `proc` equal to the child started most recently. |
| `SecureTunnelWatcher.StreamHandler.StartConnector` | src/secure_tunnel_watcher.py:40-84 | The guarded block. If the configuration file cannot be written, nothing happens and the pass logs the configuration failure. Otherwise it records WriteConfig and replaces the child. The trace, `proc` and outcome equal `Session.Launch`. |
| `SecureTunnelWatcher.StreamHandler.ReplaceChild` | src/secure_tunnel_watcher.py:56-70 | If `services[0]` raises, nothing more happens and the old child stays tracked. Otherwise the previous child is stopped when its poll answer calls for it, and then the connector restarts. The result equals `Session.Replace`. |
| `SecureTunnelWatcher.StreamHandler.RestartConnector` | src/secure_tunnel_watcher.py:72-84 | If the lock reset fails, nothing happens. If an argument is not text or the launch call raises, only ResetLock is recorded and `proc` is unchanged. Otherwise it records ResetLock and Spawn and tracks the new child. Then it records StartReaper, or, when the reaper thread cannot be started, it reports the failure with the new child still tracked. The result equals `Session.Restart`. |
| `SecureTunnelWatcher.StreamHandler.StopPrevious` | src/secure_tunnel_watcher.py:67-70 | Appends Terminate and the grace Sleep exactly when a child is tracked and its poll answer is falsy. |
| `SecureTunnelWatcher.StreamHandler.Track` | src/secure_tunnel_watcher.py:79 | The launched child is recorded as a Spawn and becomes `proc`. |
| `SecureTunnelWatcher.TopicName` | src/secure_tunnel_watcher.py:101 | The topic is `$aws/things/` + thing + `/tunnels/notify`. The thing name can be read back from it. |
| `SecureTunnelWatcher.TopicNameInjective` | src/secure_tunnel_watcher.py:101 | Distinct thing names give distinct topics. |
| `SecureTunnelWatcher.InitWatcher` | src/secure_tunnel_watcher.py:97-106 | Start-up exits with status 1 exactly when `AWS_IOT_THING_NAME` is absent. Otherwise it makes one subscription, at least once, to that thing's notification topic. |

## Left out

- Top-level JSON values other than objects are not modelled. The field-presence loop runs outside both `try` blocks. On a number, boolean or `null`, the `in` test raises `TypeError` out of the handler. On a list or string, it tests element or substring membership. The payload is therefore modelled as "invalid" or "a JSON object".
- Proxy URL parsing and the proxy configuration file are not modelled. The code has neither, and its command line has no `--http-proxy-config` flag, so the model follows the code.
- Process control is not modelled. Real process creation, `start_new_session` and the merged stderr are OS behaviour. So are the reaper thread, which runs concurrently, and the real 5-second sleep. They appear only as the effects `Spawn`, `StartReaper` and `Sleep(5)`. The child handle is an input (`World.spawned`), and so is whether the reaper thread can be started (`World.reaperStarts`).
- `poll()` is an input (`World.poll`). So are the success of the configuration write and the lock reset: file-system I/O.
- Partial file-system failures are not modelled. A lock directory that `rmtree` removed only in part, or a configuration file truncated before a failed write, has no counterpart. Each step either completes or raises.
- `os.path.exists`, `rmtree` and `makedirs(exist_ok=True)` are collapsed into one `ResetLock` effect.
- The configuration file's text is modelled as its key/placeholder map, not as the exact bytes.
- UTF-8 decoding and `json.loads` are library calls. Their result is the input `Payload`.
- JSON numbers are modelled as integers; floats are left out. Every number takes the same path through the handler, so nothing depends on the difference.
- The launch library also rejects arguments that contain a NUL character. That case is not singled out: it is covered by `World.spawned` being `None`.
- Log text and tracebacks are not modelled. `Outcome` records only which message is logged.
- `on_stream_error`, `on_stream_closed`, the IPC client and connection, and the `__main__` idle loop are transport plumbing and are not modelled.
- Concurrent delivery of events is not modelled. The handler is called one event at a time.
- `Connector.ConnectorReadsSession` is stated only for a region and service that do not start with `--`. Otherwise the word after a flag can be misread, because the region or service is not quoted on the command line.
