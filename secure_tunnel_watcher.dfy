/** The notification watcher itself: the stream handler that keeps the single
    connector child, and the start-up that subscribes it to the device's
    tunnel-notification topic. */
module SecureTunnelWatcher {
  import opened Wrappers
  import opened JsonValue
  import opened Connector
  import opened Session
  import SessionProperties
  import Text

  /** Receives tunnel notifications and keeps at most one connector child.
      `trace` records every effect the handler has had on the world. */
  class StreamHandler {
    var proc: Option<Handle>
    var trace: seq<Effect>

    /** The slot always holds the most recently started child. */
    ghost predicate Valid()
      reads this
    {
      proc == LastSpawned(trace)
    }

    constructor ()
      ensures Valid()
      ensures proc == None && trace == []
    {
      proc := None;
      trace := [];
    }

    /** Handles one inbound event; every failure is logged (`outcome`) and
        none escapes. */
    method OnStreamEvent(payload: Payload, env: map<string, string>, w: World) returns (outcome: Outcome)
      requires Valid()
      modifies this
      ensures Valid()
      ensures var r := Step(old(proc), payload, env, w);
        && trace == old(trace) + r.effects
        && proc == r.proc
        && outcome == r.outcome
    {
      if payload.Invalid? {
        return InvalidPayload;
      }
      var msg := payload.fields;

      var i := 0;
      while i < |REQUIRED_FIELDS|
        invariant 0 <= i <= |REQUIRED_FIELDS|
        invariant FirstMissing(REQUIRED_FIELDS, msg, 0) == FirstMissing(REQUIRED_FIELDS, msg, i)
      {
        if REQUIRED_FIELDS[i] !in msg {
          return MissingField(REQUIRED_FIELDS[i]);
        }
        i := i + 1;
      }
      assert AllPresent(REQUIRED_FIELDS, msg) by {
        assert REQUIRED_FIELDS[0..] == REQUIRED_FIELDS;
      }

      outcome := StartConnector(msg["region"], msg["services"], msg["clientAccessToken"], env, w);
    }

    /** Configures and starts the connector for a notification that has all
        its fields: writes the placeholder configuration, then replaces the child. */
    method StartConnector(region: Json, services: Json, token: Json, env: map<string, string>, w: World)
        returns (outcome: Outcome)
      requires Valid()
      modifies this
      ensures Valid()
      ensures var r := Launch(old(proc), region, services, token, env, w);
        && trace == old(trace) + r.effects
        && proc == r.proc
        && outcome == r.outcome
    {
      if !w.configWritable {
        return StartFailed(ConfigNotWritten);
      }
      ghost var before, previous := trace, proc;
      Record([WriteConfig(CONFIG_PATH, DUMMY_CONFIG)]);
      outcome := ReplaceChild(region, services, token, env, w);
      Concatenated(before, [WriteConfig(CONFIG_PATH, DUMMY_CONFIG)], Replace(previous, region, services, token, env, w).effects);
    }

    /** Takes `services[0]` (the command line is built before anything else
        happens to the previous child), stops the previous child when its poll
        answer calls for it, then restarts the connector. */
    method ReplaceChild(region: Json, services: Json, token: Json, env: map<string, string>, w: World)
        returns (outcome: Outcome)
      requires Valid()
      modifies this
      ensures Valid()
      ensures var r := Replace(old(proc), region, services, token, env, w);
        && trace == old(trace) + r.effects
        && proc == r.proc
        && outcome == r.outcome
    {
      var service := Index0(services);
      if service.None? {
        return StartFailed(ServiceNotIndexable);
      }
      ghost var before, previous := trace, proc;
      StopPrevious(w.poll);
      outcome := RestartConnector(region, service.value, token, env, w);
      Concatenated(before, Stop(previous, w.poll), Restart(previous, region, service.value, token, env, w).effects);
    }

    /** Resets the lock directory, launches the connector, tracks the new
        child and starts its reaper. */
    method RestartConnector(region: Json, service: Json, token: Json, env: map<string, string>, w: World)
        returns (outcome: Outcome)
      requires Valid()
      modifies this
      ensures Valid()
      ensures var r := Restart(old(proc), region, service, token, env, w);
        && trace == old(trace) + r.effects
        && proc == r.proc
        && outcome == r.outcome
    {
      if !w.lockResettable {
        return StartFailed(LockNotReset);
      }
      ghost var before := trace;
      Record([ResetLock(LOCK_FILE_PATH)]);

      var invocation := Invocation(region, service, token, env);
      if invocation.None? {
        return StartFailed(ArgumentNotText);
      }
      if w.spawned.None? {
        return StartFailed(SpawnRaised);
      }
      var child := w.spawned.value;
      Track(invocation.value.0, invocation.value.1, child);
      ghost var launched := [ResetLock(LOCK_FILE_PATH), Spawn(invocation.value.0, invocation.value.1, child)];
      Concatenated(before, [ResetLock(LOCK_FILE_PATH)], [Spawn(invocation.value.0, invocation.value.1, child)]);
      if !w.reaperStarts {
        return StartFailed(ReaperNotStarted);
      }
      Record([StartReaper(child)]);
      Concatenated(before, launched, [StartReaper(child)]);
      return Started(child);
    }

    /** `self.proc and not self.proc.poll()`: asks the tracked child to
        terminate and sleeps the grace period when its poll answer is falsy. */
    method StopPrevious(poll: Liveness)
      requires Valid()
      modifies this`trace
      ensures Valid()
      ensures trace == old(trace) + Stop(proc, poll)
    {
      if NeedsTerminate(proc, poll) {
        Record([Terminate(proc.value), Sleep(GRACE_SECONDS)]);
      }
    }

    /** Appends effects that have completed, none of them a start, to the trace. */
    method Record(effects: seq<Effect>)
      requires Valid()
      requires forall e :: e in effects ==> !e.Spawn?
      modifies this`trace
      ensures Valid()
      ensures trace == old(trace) + effects
    {
      SessionProperties.NoSpawnMeansNoLast(effects);
      SessionProperties.LastSpawnedAppend(trace, effects);
      trace := trace + effects;
    }

    /** Records the start of a child and tracks it in the slot. */
    method Track(cmd: seq<string>, env: map<string, string>, child: Handle)
      modifies this
      ensures Valid()
      ensures trace == old(trace) + [Spawn(cmd, env, child)]
      ensures proc == Some(child)
    {
      SessionProperties.LastSpawnedAppend(trace, [Spawn(cmd, env, child)]);
      trace := trace + [Spawn(cmd, env, child)];
      proc := Some(child);
    }
  }

  /** Appending in two steps is appending once. */
  lemma Concatenated(t: seq<Effect>, u: seq<Effect>, v: seq<Effect>)
    ensures t + u + v == t + (u + v)
  {
  }

  const THING_NAME_VAR: string := "AWS_IOT_THING_NAME"
  const TOPIC_PREFIX: string := "$aws/things/"
  const TOPIC_SUFFIX: string := "/tunnels/notify"

  /** Delivery guarantee requested for the subscription. */
  datatype Qos = AtMostOnce | AtLeastOnce

  /** How start-up ends: the process exits with a status, or one subscription is made. */
  datatype Startup = Exit(status: int) | Subscribe(topic: string, qos: Qos)

  /** The device's tunnel-notification topic; the thing name can be read back from it. */
  function TopicName(thing: string): (topic: string)
    ensures Text.Unwrap(topic, TOPIC_PREFIX, TOPIC_SUFFIX) == Some(thing)
  {
    Text.UnwrapWrap(TOPIC_PREFIX, thing, TOPIC_SUFFIX);
    TOPIC_PREFIX + thing + TOPIC_SUFFIX
  }

  /** Distinct devices listen on distinct topics. */
  lemma TopicNameInjective(a: string, b: string)
    ensures TopicName(a) == TopicName(b) ==> a == b
  {
  }

  /** Start-up: exit with status 1 when the thing name is not in the
      environment, otherwise subscribe once, at least once delivery, to that
      thing's tunnel-notification topic. */
  function InitWatcher(env: map<string, string>): (r: Startup)
    ensures r.Exit? <==> THING_NAME_VAR !in env
    ensures r.Exit? ==> r.status == 1
    ensures r.Subscribe? ==> r.qos == AtLeastOnce
    ensures r.Subscribe? ==> Text.Unwrap(r.topic, TOPIC_PREFIX, TOPIC_SUFFIX) == Some(env[THING_NAME_VAR])
  {
    if THING_NAME_VAR !in env then Exit(1)
    else Subscribe(TopicName(env[THING_NAME_VAR]), AtLeastOnce)
  }
}
