/** What one pass of the handler guarantees, proved about `Session.Step`. */
module SessionProperties {
  import opened Wrappers
  import opened JsonValue
  import opened Connector
  import opened Session

  /** The pass gets as far as replacing the tracked child: the payload is an
      object with every required field, the configuration file was written and
      `services[0]` could be taken. */
  predicate Prepared(payload: Payload, w: World) {
    && payload.Object?
    && AllPresent(REQUIRED_FIELDS, payload.fields)
    && w.configWritable
    && Index0(payload.fields["services"]).Some?
  }

  /** The pass gets as far as launching a new child: prepared, the lock
      directory reset, the region, service and token all strings, and the
      launch call returning a child. */
  predicate Spawns(payload: Payload, w: World) {
    && Prepared(payload, w)
    && w.lockResettable
    && TextOf(payload.fields["region"]).Some?
    && TextOf(Index0(payload.fields["services"]).value).Some?
    && TextOf(payload.fields["clientAccessToken"]).Some?
    && w.spawned.Some?
  }

  /** The pass gets through every stage: the new child is launched and its
      reaper thread is started. */
  predicate Launches(payload: Payload, w: World) {
    Spawns(payload, w) && w.reaperStarts
  }

  /** A payload that could not be decoded or parsed does nothing at all. */
  lemma InvalidPayloadIsIgnored(proc: Option<Handle>, env: map<string, string>, w: World)
    ensures Step(proc, Invalid, env, w) == StepResult([], proc, InvalidPayload)
  {
  }

  /** A notification without one of the required fields does nothing at all
      and reports the first missing field, in checking order. */
  lemma IncompleteEventIsIgnored(proc: Option<Handle>, fields: map<string, Json>, env: map<string, string>, w: World)
    requires !AllPresent(REQUIRED_FIELDS, fields)
    ensures var r := Step(proc, Object(fields), env, w);
      && r.effects == [] && r.proc == proc
      && r.outcome.MissingField?
      && r.outcome.field in REQUIRED_FIELDS && r.outcome.field !in fields
      && forall j :: 0 <= j < |REQUIRED_FIELDS| && REQUIRED_FIELDS[j] == r.outcome.field ==>
           AllPresent(REQUIRED_FIELDS[..j], fields)
  {
    assert REQUIRED_FIELDS[0..] == REQUIRED_FIELDS;
  }

  /** The pass reports a started child exactly when every stage succeeds, and
      names the child the launch call returned. The child tracked afterwards is
      that child whenever the launch call returned one, even when starting its
      reaper then raised; otherwise the tracked child stays what it was. */
  lemma StartedIff(proc: Option<Handle>, payload: Payload, env: map<string, string>, w: World)
    ensures var r := Step(proc, payload, env, w);
      && (r.outcome.Started? <==> Launches(payload, w))
      && (r.outcome.Started? ==> r.outcome == Started(w.spawned.value))
      && r.proc == if Spawns(payload, w) then w.spawned else proc
  {
    if payload.Object? && AllPresent(REQUIRED_FIELDS, payload.fields) {
      assert REQUIRED_FIELDS[0..] == REQUIRED_FIELDS;
    }
  }

  /** A successful pass writes the configuration file, stops the previous
      child when its poll answer calls for it, resets the lock directory and
      starts the connector with the fixed command line for the notified region
      and first service, in the inherited environment extended with the token,
      and finally starts the reaper of that child. */
  lemma StartedTrace(proc: Option<Handle>, payload: Payload, env: map<string, string>, w: World)
    requires Step(proc, payload, env, w).outcome.Started?
    ensures Launches(payload, w)
    ensures var fields := payload.fields;
      var region := fields["region"].s;
      var service := Index0(fields["services"]).value.s;
      var token := fields["clientAccessToken"].s;
      var h := w.spawned.value;
      Step(proc, payload, env, w).effects ==
        [WriteConfig(CONFIG_PATH, DUMMY_CONFIG)] + Stop(proc, w.poll) +
        [ResetLock(LOCK_FILE_PATH), Spawn(BuildCmd(region, service), ChildEnv(env, token), h), StartReaper(h)]
  {
    StartedIff(proc, payload, env, w);
    assert REQUIRED_FIELDS[0..] == REQUIRED_FIELDS;
  }

  /** The previous child is asked to terminate exactly when the pass gets as
      far as replacing it and its poll answer is falsy. */
  lemma TerminateIff(proc: Option<Handle>, payload: Payload, env: map<string, string>, w: World, h: Handle)
    ensures Terminate(h) in Step(proc, payload, env, w).effects <==>
      Prepared(payload, w) && proc == Some(h) && NeedsTerminate(proc, w.poll)
  {
    if payload.Object? && AllPresent(REQUIRED_FIELDS, payload.fields) {
      assert REQUIRED_FIELDS[0..] == REQUIRED_FIELDS;
    }
  }

  /** Because the poll answer is tested for falsiness, a previous child that
      already exited with status 0 is still terminated and slept on, while one
      that exited with any other status is not. */
  lemma ExitedChildTerminatedOnlyOnZero(proc: Option<Handle>, payload: Payload, env: map<string, string>, w: World, code: int)
    requires Prepared(payload, w) && proc.Some? && w.poll == Exited(code)
    ensures Terminate(proc.value) in Step(proc, payload, env, w).effects <==> code == 0
  {
    TerminateIff(proc, payload, env, w, proc.value);
  }

  /** Where the effects of any pass can stand: the configuration write comes
      first, a termination is followed at once by the grace sleep, and it comes
      before the lock reset, the start and the reaper. */
  lemma EffectOrder(proc: Option<Handle>, payload: Payload, env: map<string, string>, w: World)
    ensures var e := Step(proc, payload, env, w).effects;
      && (e != [] ==> e[0] == WriteConfig(CONFIG_PATH, DUMMY_CONFIG))
      && (forall i :: 0 <= i < |e| && e[i].Terminate? ==> i + 1 < |e| && e[i + 1] == Sleep(GRACE_SECONDS))
      && (forall i :: 0 <= i < |e| && e[i].Sleep? ==> 0 < i && e[i - 1].Terminate?)
      && (forall i, j :: 0 <= i < |e| && 0 <= j < |e| && e[i].Terminate? && LaunchEffect(e[j]) ==> i < j)
  {
    if payload.Object? && AllPresent(REQUIRED_FIELDS, payload.fields) {
      assert REQUIRED_FIELDS[0..] == REQUIRED_FIELDS;
    }
    if Prepared(payload, w) {
      var tail := PreparedTail(proc, payload, env, w);
      OrderOfShape(Stop(proc, w.poll), tail);
    }
  }

  /** The effects that belong to starting the new child. */
  predicate LaunchEffect(e: Effect) {
    e.ResetLock? || e.Spawn? || e.StartReaper?
  }

  /** Once prepared, a pass is the configuration write, the optional stop and
      then only launch effects. */
  lemma PreparedTail(proc: Option<Handle>, payload: Payload, env: map<string, string>, w: World)
      returns (tail: seq<Effect>)
    requires Prepared(payload, w)
    ensures Step(proc, payload, env, w).effects == [WriteConfig(CONFIG_PATH, DUMMY_CONFIG)] + Stop(proc, w.poll) + tail
    ensures forall x :: x in tail ==> LaunchEffect(x)
  {
    assert REQUIRED_FIELDS[0..] == REQUIRED_FIELDS;
    var e := Step(proc, payload, env, w).effects;
    var n := 1 + |Stop(proc, w.poll)|;
    tail := e[n..];
    assert e[..n] == [WriteConfig(CONFIG_PATH, DUMMY_CONFIG)] + Stop(proc, w.poll);
    assert e == e[..n] + tail;
  }

  lemma OrderOfShape(stop: seq<Effect>, tail: seq<Effect>)
    requires stop == [] || (stop[0].Terminate? && stop == [stop[0], Sleep(GRACE_SECONDS)])
    requires forall x :: x in tail ==> LaunchEffect(x)
    ensures var e := [WriteConfig(CONFIG_PATH, DUMMY_CONFIG)] + stop + tail;
      && (forall i :: 0 <= i < |e| && e[i].Terminate? ==> i + 1 < |e| && e[i + 1] == Sleep(GRACE_SECONDS))
      && (forall i :: 0 <= i < |e| && e[i].Sleep? ==> 0 < i && e[i - 1].Terminate?)
      && (forall i, j :: 0 <= i < |e| && 0 <= j < |e| && e[i].Terminate? && LaunchEffect(e[j]) ==> i < j)
  {
    var e := [WriteConfig(CONFIG_PATH, DUMMY_CONFIG)] + stop + tail;
    var n := 1 + |stop|;
    forall k | n <= k < |e| ensures LaunchEffect(e[k]) {
      assert e[k] == tail[k - n];
      assert tail[k - n] in tail;
    }
    forall k | 0 <= k < n ensures !LaunchEffect(e[k]) && (e[k].Terminate? ==> k == 1) {
      if k > 0 { assert e[k] == stop[k - 1]; }
    }
  }

  /** No pass starts more than one child. */
  lemma AtMostOneSpawn(proc: Option<Handle>, payload: Payload, env: map<string, string>, w: World)
    ensures var e := Step(proc, payload, env, w).effects;
      forall i, j :: 0 <= i < |e| && 0 <= j < |e| && e[i].Spawn? && e[j].Spawn? ==> i == j
  {
    if Spawns(payload, w) {
      var fields := payload.fields;
      var cmd := BuildCmd(fields["region"].s, Index0(fields["services"]).value.s);
      var child := ChildEnv(env, fields["clientAccessToken"].s);
      var h := w.spawned.value;
      if w.reaperStarts {
        StartedIff(proc, payload, env, w);
        StartedTrace(proc, payload, env, w);
        OneSpawnShape(Stop(proc, w.poll), [ResetLock(LOCK_FILE_PATH), Spawn(cmd, child, h), StartReaper(h)], cmd, child, h);
      } else {
        ReaperFailureTrace(proc, payload, env, w);
        OneSpawnShape(Stop(proc, w.poll), [ResetLock(LOCK_FILE_PATH), Spawn(cmd, child, h)], cmd, child, h);
      }
    } else {
      NoSpawnWithoutLaunch(proc, payload, env, w);
    }
  }

  /** The effects of a pass that launched a child hold that one start and no other. */
  lemma OneSpawnShape(stop: seq<Effect>, launch: seq<Effect>, cmd: seq<string>, env: map<string, string>, h: Handle)
    requires forall x :: x in stop ==> !x.Spawn?
    requires launch == [ResetLock(LOCK_FILE_PATH), Spawn(cmd, env, h), StartReaper(h)]
          || launch == [ResetLock(LOCK_FILE_PATH), Spawn(cmd, env, h)]
    ensures var e := [WriteConfig(CONFIG_PATH, DUMMY_CONFIG)] + stop + launch;
      forall i, j :: 0 <= i < |e| && 0 <= j < |e| && e[i].Spawn? && e[j].Spawn? ==> i == j
  {
    var e := [WriteConfig(CONFIG_PATH, DUMMY_CONFIG)] + stop + launch;
    var k := 2 + |stop|;
    forall i | 0 <= i < |e| && i != k ensures !e[i].Spawn? {
      if 0 < i <= |stop| {
        assert e[i] == stop[i - 1];
        assert stop[i - 1] in stop;
      } else if i > |stop| {
        assert e[i] == launch[i - 1 - |stop|];
      }
    }
  }

  /** When the new child is launched but its reaper thread cannot be started,
      the pass reports the failure, yet the new child has been launched and
      stays tracked: the effects are those of a successful pass without the
      reaper. */
  lemma ReaperFailureTrace(proc: Option<Handle>, payload: Payload, env: map<string, string>, w: World)
    requires Spawns(payload, w) && !w.reaperStarts
    ensures var fields := payload.fields;
      var region := fields["region"].s;
      var service := Index0(fields["services"]).value.s;
      var token := fields["clientAccessToken"].s;
      var h := w.spawned.value;
      var r := Step(proc, payload, env, w);
      && r.outcome == StartFailed(ReaperNotStarted)
      && r.proc == Some(h)
      && r.effects ==
        [WriteConfig(CONFIG_PATH, DUMMY_CONFIG)] + Stop(proc, w.poll) +
        [ResetLock(LOCK_FILE_PATH), Spawn(BuildCmd(region, service), ChildEnv(env, token), h)]
  {
    assert REQUIRED_FIELDS[0..] == REQUIRED_FIELDS;
  }

  /** A pass that does not reach the launch starts no child and no reaper and
      keeps the tracked child as it was, even after its termination was asked
      for. */
  lemma NoSpawnWithoutLaunch(proc: Option<Handle>, payload: Payload, env: map<string, string>, w: World)
    requires !Spawns(payload, w)
    ensures var r := Step(proc, payload, env, w);
      && r.proc == proc
      && !r.outcome.Started?
      && forall e :: e in r.effects ==> !e.Spawn? && !e.StartReaper?
  {
    if payload.Object? && AllPresent(REQUIRED_FIELDS, payload.fields) {
      assert REQUIRED_FIELDS[0..] == REQUIRED_FIELDS;
    }
  }

  /** When `services[0]` raises, the pass stops right after writing the
      configuration file: the previous child is left running and still tracked. */
  lemma BuildFailureSparesPreviousChild(proc: Option<Handle>, payload: Payload, env: map<string, string>, w: World)
    requires payload.Object? && AllPresent(REQUIRED_FIELDS, payload.fields) && w.configWritable
    requires Index0(payload.fields["services"]).None?
    ensures var r := Step(proc, payload, env, w);
      && r.effects == [WriteConfig(CONFIG_PATH, DUMMY_CONFIG)] && r.proc == proc
      && r.outcome == StartFailed(ServiceNotIndexable)
  {
    if payload.Object? && AllPresent(REQUIRED_FIELDS, payload.fields) {
      assert REQUIRED_FIELDS[0..] == REQUIRED_FIELDS;
    }
  }

  /** `LastSpawned` of a concatenation: the last start in the second part if
      there is one, otherwise the last start in the first. */
  lemma {:induction false} LastSpawnedAppend(t: seq<Effect>, u: seq<Effect>)
    ensures LastSpawned(t + u) == if LastSpawned(u).Some? then LastSpawned(u) else LastSpawned(t)
    decreases |u|
  {
    if u == [] {
      assert t + u == t;
    } else {
      var last := u[|u| - 1];
      assert (t + u)[..|t + u| - 1] == t + u[..|u| - 1];
      if !last.Spawn? {
        LastSpawnedAppend(t, u[..|u| - 1]);
      }
    }
  }

  /** The single slot always holds the most recently started child: if it did
      before a pass, it still does after it. */
  lemma SlotHoldsLastSpawn(trace: seq<Effect>, proc: Option<Handle>, payload: Payload, env: map<string, string>, w: World)
    requires LastSpawned(trace) == proc
    ensures var r := Step(proc, payload, env, w);
      LastSpawned(trace + r.effects) == r.proc
  {
    var r := Step(proc, payload, env, w);
    LastSpawnedAppend(trace, r.effects);
    var e := r.effects;
    if r.outcome.Started? {
      StartedTrace(proc, payload, env, w);
      var h := w.spawned.value;
      assert e[|e| - 1] == StartReaper(h);
      assert e[..|e| - 1][|e| - 2] == e[|e| - 2];
      StartedIff(proc, payload, env, w);
    } else if Spawns(payload, w) {
      ReaperFailureTrace(proc, payload, env, w);
      assert e[|e| - 1].Spawn?;
    } else {
      NoSpawnWithoutLaunch(proc, payload, env, w);
      NoSpawnMeansNoLast(e);
    }
  }

  /** A trace without a start has no last start. */
  lemma {:induction false} NoSpawnMeansNoLast(u: seq<Effect>)
    requires forall e :: e in u ==> !e.Spawn?
    ensures LastSpawned(u) == None
    decreases |u|
  {
    if u != [] {
      assert u[|u| - 1] in u;
      NoSpawnMeansNoLast(u[..|u| - 1]);
    }
  }

  /** The same notification delivered twice: if the first delivery started a
      child that is still running when the second arrives, the second writes
      the configuration file and then, before anything else, asks that child to
      terminate and waits the grace period. */
  lemma RepeatedNotificationReplaces(proc: Option<Handle>, payload: Payload, env: map<string, string>, w1: World, w2: World)
    requires Step(proc, payload, env, w1).outcome.Started?
    requires w2.configWritable && w2.poll == Running
    ensures var first := Step(proc, payload, env, w1);
      var second := Step(first.proc, payload, env, w2);
      && first.proc == Some(first.outcome.child)
      && |second.effects| >= 3
      && second.effects[..3] == [WriteConfig(CONFIG_PATH, DUMMY_CONFIG), Terminate(first.outcome.child), Sleep(GRACE_SECONDS)]
  {
    var first := Step(proc, payload, env, w1);
    StartedIff(proc, payload, env, w1);
    assert Prepared(payload, w2);
    assert REQUIRED_FIELDS[0..] == REQUIRED_FIELDS;
  }

  /** The notification `{"clientAccessToken": "foobar", "region": "TEST-Region",
      "services": ["TEST-Service"]}` received with no child tracked starts
      exactly one child, with this command line and the token in its environment. */
  lemma ExampleNotification(env: map<string, string>, h: Handle)
    ensures var fields := map["clientAccessToken" := JString("foobar"), "region" := JString("TEST-Region"),
                              "services" := JArray([JString("TEST-Service")])];
      var r := Step(None, Object(fields), env, World(Running, true, true, Some(h), true));
      && r.outcome == Started(h) && r.proc == Some(h)
      && |r.effects| == 4
      && r.effects[2].Spawn?
      && r.effects[2].cmd == [
           "/app/aws-iot-device-client",
           "--enable-tunneling", "true",
           "--tunneling-region", "TEST-Region",
           "--tunneling-service", "TEST-Service",
           "--endpoint", "data.tunneling.iot.TEST-Region.amazonaws.com",
           "--tunneling-disable-notification",
           "--config-file", "dummy_config.json",
           "--log-level", "DEBUG"]
      && r.effects[2].env["AWSIOT_TUNNEL_ACCESS_TOKEN"] == "foobar"
  {
    var fields := map["clientAccessToken" := JString("foobar"), "region" := JString("TEST-Region"),
                      "services" := JArray([JString("TEST-Service")])];
    var w := World(Running, true, true, Some(h), true);
    assert FirstMissing(REQUIRED_FIELDS, fields, 0) == None by {
      assert AllPresent(REQUIRED_FIELDS, fields);
      assert REQUIRED_FIELDS[0..] == REQUIRED_FIELDS;
    }
    assert Step(None, Object(fields), env, w)
        == Launch(None, JString("TEST-Region"), JArray([JString("TEST-Service")]), JString("foobar"), env, w);
    var cmd := BuildCmd("TEST-Region", "TEST-Service");
    assert Invocation(JString("TEST-Region"), JString("TEST-Service"), JString("foobar"), env)
        == Some((cmd, ChildEnv(env, "foobar")));
    assert Launch(None, JString("TEST-Region"), JArray([JString("TEST-Service")]), JString("foobar"), env, w).effects
        == [WriteConfig(CONFIG_PATH, DUMMY_CONFIG), ResetLock(LOCK_FILE_PATH), Spawn(cmd, ChildEnv(env, "foobar"), h), StartReaper(h)];
    ExampleCommandLine();
  }

  /** A `services` value that is a string, not a list: `services[0]` is its
      first character, so the service becomes "s"; when the launch call then
      raises, the error is swallowed and no child is tracked. */
  lemma ExampleLaunchError(env: map<string, string>)
    ensures var fields := map["region" := JString("unknown-region"), "services" := JString("some-service"),
                              "clientAccessToken" := JString("abcd1234")];
      var r := Step(None, Object(fields), env, World(Running, true, true, None, true));
      && r.outcome == StartFailed(SpawnRaised) && r.proc == None
      && Index0(fields["services"]) == Some(JString("s"))
  {
    var fields := map["region" := JString("unknown-region"), "services" := JString("some-service"),
                      "clientAccessToken" := JString("abcd1234")];
    assert AllPresent(REQUIRED_FIELDS, fields);
    assert REQUIRED_FIELDS[0..] == REQUIRED_FIELDS;
    assert "some-service"[..1] == "s";
  }
}
