/** One pass of the tunnel-notification handler as a specification: given the
    tracked child, the event payload, the inherited environment and what the
    outside world answers, the effects performed, the child tracked afterwards
    and the message logged. */
module Session {
  import opened Wrappers
  import opened JsonValue
  import opened Connector

  /** A child process started by the handler. */
  datatype Handle = Handle(pid: nat)

  /** What `poll()` answers for the tracked child: still running (`None`), or
      its exit code (negative when a signal ended it). */
  datatype Liveness = Running | Exited(code: int)

  /** The outside world's answers during one event: the poll result of the
      tracked child, whether the configuration file can be written, whether
      the lock directory can be removed and recreated, the child the
      process-launch call returns (`None` when it raises), and whether the
      reaper thread of that child can be started. */
  datatype World = World(poll: Liveness, configWritable: bool, lockResettable: bool, spawned: Option<Handle>,
                         reaperStarts: bool)

  /** The handler's effects on the world, each recorded once it has completed. */
  datatype Effect =
    | WriteConfig(path: string, content: map<string, string>)
    | Terminate(child: Handle)
    | Sleep(seconds: nat)
    | ResetLock(path: string)
    | Spawn(cmd: seq<string>, env: map<string, string>, child: Handle)
    | StartReaper(child: Handle)

  /** Why starting the connector failed; every such failure is caught and logged. */
  datatype Failure =
    | ConfigNotWritten     // opening or writing the configuration file raised
    | ServiceNotIndexable  // `services[0]` raised
    | LockNotReset         // removing or recreating the lock directory raised
    | ArgumentNotText      // a command word or the token is not a string, so joining or launching raised
    | SpawnRaised          // the process-launch call raised
    | ReaperNotStarted     // starting the reaper thread raised, after the new child was tracked

  /** Which message the pass ends with. */
  datatype Outcome =
    | InvalidPayload
    | MissingField(field: string)
    | StartFailed(cause: Failure)
    | Started(child: Handle)

  datatype StepResult = StepResult(effects: seq<Effect>, proc: Option<Handle>, outcome: Outcome)

  /** The fields a notification must carry, in the order they are checked. */
  const REQUIRED_FIELDS: seq<string> := ["region", "services", "clientAccessToken"]

  /** Every one of `keys` is a field of the message. */
  predicate AllPresent(keys: seq<string>, fields: map<string, Json>) {
    forall k :: k in keys ==> k in fields
  }

  /** The position of the first of `keys`, from position `from` on, that the
      message lacks. */
  function FirstMissing(keys: seq<string>, fields: map<string, Json>, from: nat): (r: Option<nat>)
    requires from <= |keys|
    ensures r.None? <==> AllPresent(keys[from..], fields)
    ensures r.Some? ==> from <= r.value < |keys| && keys[r.value] !in fields
    ensures r.Some? ==> AllPresent(keys[from..r.value], fields)
    decreases |keys| - from
  {
    if from == |keys| then None
    else if keys[from] !in fields then Some(from)
    else
      var r := FirstMissing(keys, fields, from + 1);
      assert keys[from..] == [keys[from]] + keys[from + 1..];
      assert r.Some? ==> keys[from..r.value] == [keys[from]] + keys[from + 1..r.value];
      r
  }

  /** `self.proc and not self.proc.poll()`: a child is tracked and its poll
      answer is falsy, which is the case for "running" and for exit code 0. */
  predicate NeedsTerminate(proc: Option<Handle>, poll: Liveness)
    ensures NeedsTerminate(proc, poll) ==> proc.Some?
    ensures proc.Some? && poll.Exited? ==> (NeedsTerminate(proc, poll) <==> poll.code == 0)
  {
    proc.Some? && (poll.Running? || poll.code == 0)
  }

  /** The command line and environment handed to the process-launch call, when
      the region, the service and the token are all strings. */
  function Invocation(region: Json, service: Json, token: Json, env: map<string, string>)
    : (r: Option<(seq<string>, map<string, string>)>)
    ensures r.Some? <==> TextOf(region).Some? && TextOf(service).Some? && TextOf(token).Some?
    ensures r.Some? ==> && |r.value.0| == 14 && r.value.0[4] == region.s && r.value.0[6] == service.s
                        && TOKEN_VAR in r.value.1 && r.value.1[TOKEN_VAR] == token.s
  {
    if region.JString? && service.JString? && token.JString? then
      Some((BuildCmd(region.s, service.s), ChildEnv(env, token.s)))
    else
      None
  }

  /** One event handled from start to end. */
  function Step(proc: Option<Handle>, payload: Payload, env: map<string, string>, w: World): (r: StepResult)
    ensures r.proc == proc || r.proc == w.spawned
    ensures r.outcome.Started? ==> w.spawned == Some(r.outcome.child) && r.proc == w.spawned
    ensures r.effects != [] ==> r.effects[0] == WriteConfig(CONFIG_PATH, DUMMY_CONFIG)
  {
    match payload
    case Invalid => StepResult([], proc, InvalidPayload)
    case Object(fields) =>
      match FirstMissing(REQUIRED_FIELDS, fields, 0)
      case Some(i) => StepResult([], proc, MissingField(REQUIRED_FIELDS[i]))
      case None => Launch(proc, fields["region"], fields["services"], fields["clientAccessToken"], env, w)
  }

  /** `r` preceded by effects that were completed before it. */
  function After(done: seq<Effect>, r: StepResult): StepResult {
    StepResult(done + r.effects, r.proc, r.outcome)
  }

  /** Configure and start the connector for a notification that has all its
      fields: write the placeholder configuration, then replace the child. */
  function Launch(proc: Option<Handle>, region: Json, services: Json, token: Json,
                  env: map<string, string>, w: World): (r: StepResult)
    ensures r.effects == [] <==> !w.configWritable
    ensures r.effects != [] ==> r.effects[0] == WriteConfig(CONFIG_PATH, DUMMY_CONFIG)
    ensures r.proc == proc || r.proc == w.spawned
    ensures r.outcome.Started? ==> w.spawned == Some(r.outcome.child) && r.proc == w.spawned
  {
    if !w.configWritable then StepResult([], proc, StartFailed(ConfigNotWritten))
    else After([WriteConfig(CONFIG_PATH, DUMMY_CONFIG)], Replace(proc, region, services, token, env, w))
  }

  /** Take `services[0]`, stop the previous child when its poll answer calls
      for it, then reset the lock directory and start the new child. */
  function Replace(proc: Option<Handle>, region: Json, services: Json, token: Json,
                   env: map<string, string>, w: World): (r: StepResult)
    ensures Index0(services).None? ==> r.effects == [] && r.proc == proc
    ensures Index0(services).Some? ==> Stop(proc, w.poll) <= r.effects
    ensures r.proc == proc || r.proc == w.spawned
    ensures r.outcome.Started? ==> w.spawned == Some(r.outcome.child) && r.proc == w.spawned
  {
    var service := Index0(services);
    if service.None? then StepResult([], proc, StartFailed(ServiceNotIndexable))
    else After(Stop(proc, w.poll), Restart(proc, region, service.value, token, env, w))
  }

  /** Reset the lock directory, then launch the connector, track the new child
      and start its reaper. The child is tracked before the reaper is started,
      so it stays tracked when starting the reaper raises. */
  function Restart(proc: Option<Handle>, region: Json, service: Json, token: Json,
                   env: map<string, string>, w: World): (r: StepResult)
    ensures var launched := w.lockResettable && Invocation(region, service, token, env).Some? && w.spawned.Some?;
      && r.proc == (if launched then w.spawned else proc)
      && (r.outcome.Started? <==> launched && w.reaperStarts)
      && (r.outcome.Started? ==> r.outcome == Started(w.spawned.value))
    ensures forall e :: e in r.effects ==> e.ResetLock? || e.Spawn? || e.StartReaper?
  {
    if !w.lockResettable then StepResult([], proc, StartFailed(LockNotReset))
    else
      var invocation := Invocation(region, service, token, env);
      if invocation.None? then StepResult([ResetLock(LOCK_FILE_PATH)], proc, StartFailed(ArgumentNotText))
      else if w.spawned.None? then StepResult([ResetLock(LOCK_FILE_PATH)], proc, StartFailed(SpawnRaised))
      else
        var h := w.spawned.value;
        var launched := [ResetLock(LOCK_FILE_PATH), Spawn(invocation.value.0, invocation.value.1, h)];
        if !w.reaperStarts then StepResult(launched, Some(h), StartFailed(ReaperNotStarted))
        else StepResult(launched + [StartReaper(h)], Some(h), Started(h))
  }

  /** The termination of the previous child, when its poll answer calls for it. */
  function Stop(proc: Option<Handle>, poll: Liveness): (r: seq<Effect>)
    ensures forall h :: Terminate(h) in r <==> proc == Some(h) && NeedsTerminate(proc, poll)
    ensures forall e :: e in r ==> e.Terminate? || e == Sleep(GRACE_SECONDS)
    ensures Sleep(GRACE_SECONDS) in r <==> NeedsTerminate(proc, poll)
  {
    if NeedsTerminate(proc, poll) then [Terminate(proc.value), Sleep(GRACE_SECONDS)] else []
  }

  /** The handle of the most recent `Spawn` in a trace. */
  function LastSpawned(trace: seq<Effect>): Option<Handle>
  {
    if trace == [] then None
    else if trace[|trace| - 1].Spawn? then Some(trace[|trace| - 1].child)
    else LastSpawned(trace[..|trace| - 1])
  }
}
