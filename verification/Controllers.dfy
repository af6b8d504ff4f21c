/** The two controllers as steps of one state machine: the scheduled reconcile of the
    SleepInfo and the forced reconcile of a SleepInfoExecution, over one cluster and one
    Secret. Steps are atomic. */
module Controllers {
  import opened JsonDocs
  import opened Selector
  import opened Resources
  import opened Schedule
  import opened SleepInfos

  datatype Phase = Pending | Succeeded | Failed | Skipped

  datatype Message = NoMessage | SleepInfoNotFound | NotAsleep | AlreadyAsleep | NoWakeUpAt | NoResources | Executed

  datatype Execution = Execution(
    sleepInfoName: string,
    operation: Operation,
    phase: Phase,
    startTime: Option<int>,
    completionTime: Option<int>,
    message: Message)

  predicate IsProcessed(e: Execution) {
    e.phase.Succeeded? || e.phase.Failed? || e.phase.Skipped?
  }

  /** The status of the SleepInfo. */
  datatype Status = Status(lastSchedule: int, operation: Option<Operation>)

  datatype State = State(
    cluster: Cluster,
    secret: Option<Secret>,
    executions: map<string, Execution>,
    status: Status)

  datatype Action = DidNothing | DidSleep | DidWakeUp

  /** A reconcile completes; or is rejected before it writes anything; or is interrupted by
      an error among its writes to the cluster. */
  datatype Outcome =
    | Completed(state: State, action: Action, requeueAfter: int)
    | Rejected
    | Interrupted

  function MappingOf(info: SleepInfo, c: Cluster, data: SleepInfoData): Mapping {
    NewMapping(GetPatches(info), info.filters, c, data.original)
  }

  lemma MappingIsDotFree(info: SleepInfo, c: Cluster, data: SleepInfoData)
    requires ValidInfo(info) && WellFormed(c)
    ensures AllDotFree(MappingOf(info, c, data))
    ensures AllDotFree(SleepMapping(info.filters, MappingOf(info, c, data), c))
  {
  }

  function StatusAfter(now: int, operation: Operation, m: Mapping): Status {
    Status(now, if m == map[] then None else Some(operation))
  }

  /** The operation itself, on a mapping that has resources; `None` when it fails. The
      result is the cluster and the Secret. */
  function Operate(info: SleepInfo, c: Cluster, data: SleepInfoData, now: int): Option<(Cluster, Secret)>
    requires ValidInfo(info) && WellFormed(c)
  {
    var m := MappingOf(info, c, data);
    MappingIsDotFree(info, c, data);
    match data.operation
    case SleepOperation =>
      if SleepFails(info.filters, m, c) then None
      else Some((SleepCluster(info.filters, m, c),
                 UpsertedSecret(now, SleepOperation, true, SaveInfo(SleepMapping(info.filters, m, c)))))
    case WakeUpOperation =>
      if WakeFails(info.filters, m, c) then None
      else Some((WakeCluster(info.filters, m, c), UpsertedSecret(now, WakeUpOperation, true, map[])))
  }

  function ActionOf(operation: Operation): Action {
    if operation.SleepOperation? then DidSleep else DidWakeUp
  }

  /** The scheduled reconcile. */
  function ScheduledStep(info: SleepInfo, sleepDelta: int, s: State, now: int): Outcome
    requires ValidInfo(info) && WellFormed(s.cluster)
  {
    match GetSleepInfoData(s.secret, info)
    case None => Rejected
    case Some(data) =>
      var gate := GetNextSchedule(sleepDelta, data.current, data.next, data.last, now);
      if !gate.execute then Completed(s, DidNothing, gate.requeueAfter)
      else
        var m := MappingOf(info, s.cluster, data);
        var status := StatusAfter(now, data.operation, m);
        if m == map[] then
          Completed(s.(status := status, secret := Some(UpsertedSecret(now, data.operation, false, map[]))), DidNothing,
                    if data.operation.SleepOperation? then SkipWakeUpIfSleepNotPerformed(data.current, gate.next, now)
                    else gate.requeueAfter)
        else
          match Operate(info, s.cluster, data, now)
          case None => Interrupted
          case Some((cluster, secret)) =>
            Completed(s.(status := status, cluster := cluster, secret := Some(secret)), ActionOf(data.operation), gate.requeueAfter)
  }

  /** Which status writes of a forced reconcile the server refuses. */
  datatype Faults = Faults(infoStatus: bool, executionStatus: bool)

  /** The last status write of a reconcile that acts comes after both. */
  predicate Unrecorded(faults: Faults) { faults.infoStatus || faults.executionStatus }

  /** The status write of an execution; when it is refused nothing changes. */
  function WithPhase(s: State, name: string, now: int, refused: bool, phase: Phase, message: Message): State
    requires name in s.executions
  {
    if refused then s
    else
      var e := s.executions[name];
      var start := if e.startTime.None? then Some(now) else e.startTime;
      s.(executions := s.executions[name := e.(startTime := start, completionTime := Some(now), phase := phase, message := message)])
  }

  /** The forced reconcile of the execution `name`. */
  function ForcedStep(info: SleepInfo, s: State, name: string, now: int, faults: Faults): Outcome
    requires ValidInfo(info) && WellFormed(s.cluster)
  {
    if name !in s.executions || IsProcessed(s.executions[name]) then Completed(s, DidNothing, 0)
    else
      var e := s.executions[name];
      if e.sleepInfoName != info.name then
        Completed(WithPhase(s, name, now, faults.executionStatus, Failed, SleepInfoNotFound), DidNothing, 0)
      else if e.operation.WakeUpOperation? && !IsAsleep(s.secret) then
        Completed(WithPhase(s, name, now, faults.executionStatus, Skipped, NotAsleep), DidNothing, 0)
      else if e.operation.SleepOperation? && IsAsleep(s.secret) then
        Completed(WithPhase(s, name, now, faults.executionStatus, Skipped, AlreadyAsleep), DidNothing, 0)
      else
        match GetSleepInfoData(s.secret, info)
        case None => Rejected
        case Some(stored) =>
          match ApplyExecutionOverride(stored, e.operation, info)
          case None => Completed(WithPhase(s, name, now, faults.executionStatus, Failed, NoWakeUpAt), DidNothing, 0)
          case Some(data) =>
            var m := MappingOf(info, s.cluster, data);
            if m == map[] then
              Completed(WithPhase(s, name, now, faults.executionStatus, Skipped, NoResources), DidNothing, 0)
            else
              match Operate(info, s.cluster, data, now)
              case None => Interrupted
              case Some((cluster, secret)) =>
                var done := s.(cluster := cluster, secret := Some(secret),
                               status := if faults.infoStatus then s.status else StatusAfter(now, data.operation, m));
                Completed(WithPhase(done, name, now, Unrecorded(faults), Succeeded, Executed), ActionOf(data.operation), 0)
  }

  // ---------------------------------------------------------------- runs

  /** What can happen: a scheduled reconcile, a forced reconcile, a new execution created. */
  datatype Event =
    | Scheduled(now: int)
    | Forced(name: string, now: int, faults: Faults)
    | Created(name: string, sleepInfoName: string, operation: Operation)

  function StepOutcome(info: SleepInfo, sleepDelta: int, s: State, e: Event): Outcome
    requires ValidInfo(info) && WellFormed(s.cluster)
  {
    match e
    case Scheduled(now) => ScheduledStep(info, sleepDelta, s, now)
    case Forced(name, now, faults) => ForcedStep(info, s, name, now, faults)
    case Created(name, sleepInfoName, operation) =>
      if name in s.executions then Rejected
      else Completed(s.(executions := s.executions[name := Execution(sleepInfoName, operation, Pending, None, None, NoMessage)]), DidNothing, 0)
  }

  /** Consecutive states of a run of completed reconciles. */
  ghost predicate IsStep(info: SleepInfo, sleepDelta: int, s: State, e: Event, s': State)
    requires ValidInfo(info)
  {
    && WellFormed(s.cluster)
    && StepOutcome(info, sleepDelta, s, e).Completed?
    && StepOutcome(info, sleepDelta, s, e).state == s'
  }

  ghost predicate StepAt(info: SleepInfo, sleepDelta: int, events: seq<Event>, states: seq<State>, i: nat)
    requires ValidInfo(info) && i < |events| < |states|
  {
    IsStep(info, sleepDelta, states[i], events[i], states[i + 1])
  }

  /** Any interleaving of events, each completed, from any state. */
  ghost predicate IsRunFrom(info: SleepInfo, sleepDelta: int, events: seq<Event>, states: seq<State>)
    requires ValidInfo(info)
  {
    && |states| == |events| + 1
    && WellFormed(states[0].cluster)
    && forall i: nat | i < |events| :: StepAt(info, sleepDelta, events, states, i)
  }

  /** A run: from a state without a Secret. */
  ghost predicate IsRun(info: SleepInfo, sleepDelta: int, events: seq<Event>, states: seq<State>)
    requires ValidInfo(info)
  {
    IsRunFrom(info, sleepDelta, events, states) && states[0].secret.None?
  }

  lemma RunSteps(info: SleepInfo, sleepDelta: int, events: seq<Event>, states: seq<State>, i: nat)
    requires ValidInfo(info) && IsRunFrom(info, sleepDelta, events, states) && i < |events|
    ensures IsStep(info, sleepDelta, states[i], events[i], states[i + 1])
  {
    assert StepAt(info, sleepDelta, events, states, i);
  }

  // ---------------------------------------------------------------- the shape of a step

  /** Neither cluster nor Secret is written. */
  ghost predicate Quiet(s: State, s': State, action: Action) {
    s'.cluster == s.cluster && s'.secret == s.secret && action.DidNothing?
  }

  /** A scheduled reconcile finds no resource and writes a Secret without operation type. */
  ghost predicate FoundNothing(info: SleepInfo, s: State, e: Event, s': State, action: Action)
  {
    && e.Scheduled? && action.DidNothing? && s'.cluster == s.cluster
    && var data := GetSleepInfoData(s.secret, info);
       && data.Some? && MappingOf(info, s.cluster, data.value) == map[]
       && s'.secret == Some(UpsertedSecret(e.now, data.value.operation, false, map[]))
  }

  /** The data an operation may run with: what the Secret stores; a wake-up only out of
      sleep; a sleep out of sleep only on schedule and without a wake-up time. */
  ghost predicate MayOperate(info: SleepInfo, s: State, e: Event, data: SleepInfoData)
  {
    && !e.Created?
    && var stored := GetSleepInfoData(s.secret, info);
       && stored.Some? && data.original == stored.value.original
       && (data.operation.WakeUpOperation? ==> IsAsleep(s.secret) && info.wakeUpAt.Some?)
       && (data.operation.SleepOperation? && (info.wakeUpAt.Some? || e.Forced?) ==> !IsAsleep(s.secret))
  }

  ghost predicate Operated(info: SleepInfo, s: State, data: SleepInfoData, now: int, s': State)
    requires ValidInfo(info) && WellFormed(s.cluster)
  {
    && MappingOf(info, s.cluster, data) != map[]
    && s'.secret.Some?
    && Operate(info, s.cluster, data, now) == Some((s'.cluster, s'.secret.value))
  }

  /** An operation runs on a nonempty mapping and its result is written. */
  ghost predicate Acted(info: SleepInfo, s: State, e: Event, data: SleepInfoData, s': State, action: Action)
    requires ValidInfo(info) && WellFormed(s.cluster)
  {
    MayOperate(info, s, e, data) && Operated(info, s, data, e.now, s') && action == ActionOf(data.operation)
  }

  ghost predicate StepShape(info: SleepInfo, s: State, e: Event, s': State, action: Action)
    requires ValidInfo(info) && WellFormed(s.cluster)
  {
    || Quiet(s, s', action)
    || FoundNothing(info, s, e, s', action)
    || exists data :: Acted(info, s, e, data, s', action)
  }

  lemma ScheduledMayOperate(info: SleepInfo, s: State, now: int)
    requires GetSleepInfoData(s.secret, info).Some?
    ensures MayOperate(info, s, Scheduled(now), GetSleepInfoData(s.secret, info).value)
  {
  }

  lemma ScheduledHasShape(info: SleepInfo, sleepDelta: int, s: State, now: int)
    requires ValidInfo(info) && WellFormed(s.cluster) && ScheduledStep(info, sleepDelta, s, now).Completed?
    ensures var out := ScheduledStep(info, sleepDelta, s, now); StepShape(info, s, Scheduled(now), out.state, out.action)
  {
    var out := ScheduledStep(info, sleepDelta, s, now);
    var data := GetSleepInfoData(s.secret, info).value;
    if !out.action.DidNothing? {
      ScheduledMayOperate(info, s, now);
      assert Acted(info, s, Scheduled(now), data, out.state, out.action);
    }
  }

  /** The guards of a forced reconcile let only data through it may operate with. */
  lemma ForcedMayOperate(info: SleepInfo, s: State, name: string, now: int, faults: Faults)
    requires ValidInfo(info) && name in s.executions && GetSleepInfoData(s.secret, info).Some?
    requires s.executions[name].operation.SleepOperation? <==> !IsAsleep(s.secret)
    requires ApplyExecutionOverride(GetSleepInfoData(s.secret, info).value, s.executions[name].operation, info).Some?
    ensures MayOperate(info, s, Forced(name, now, faults),
                       ApplyExecutionOverride(GetSleepInfoData(s.secret, info).value, s.executions[name].operation, info).value)
  {
  }

  lemma ForcedHasShape(info: SleepInfo, s: State, name: string, now: int, faults: Faults)
    requires ValidInfo(info) && WellFormed(s.cluster) && ForcedStep(info, s, name, now, faults).Completed?
    ensures var out := ForcedStep(info, s, name, now, faults);
            StepShape(info, s, Forced(name, now, faults), out.state, out.action)
  {
    var out := ForcedStep(info, s, name, now, faults);
    if !out.action.DidNothing? {
      var data := ApplyExecutionOverride(GetSleepInfoData(s.secret, info).value, s.executions[name].operation, info).value;
      ForcedMayOperate(info, s, name, now, faults);
      assert Acted(info, s, Forced(name, now, faults), data, out.state, out.action);
    }
  }

  /** Every completed step leaves cluster and Secret alone, or finds nothing to do, or
      operates with data it may operate with. */
  lemma StepHasShape(info: SleepInfo, sleepDelta: int, s: State, e: Event)
    requires ValidInfo(info) && WellFormed(s.cluster) && StepOutcome(info, sleepDelta, s, e).Completed?
    ensures var out := StepOutcome(info, sleepDelta, s, e); StepShape(info, s, e, out.state, out.action)
  {
    match e
    case Scheduled(now) => ScheduledHasShape(info, sleepDelta, s, now);
    case Forced(name, now, faults) => ForcedHasShape(info, s, name, now, faults);
    case Created(_, _, _) =>
  }

  /** Interrupted by an operation that fails, or rejected by a Secret that does not parse. */
  ghost predicate Excused(info: SleepInfo, s: State, e: Event, out: Outcome)
    requires ValidInfo(info) && WellFormed(s.cluster) && !e.Created?
  {
    && (out == Interrupted ==> exists data :: MayOperate(info, s, e, data) && Operate(info, s.cluster, data, e.now).None?)
    && (out == Rejected ==> GetSleepInfoData(s.secret, info).None?)
  }

  lemma ScheduledInterruption(info: SleepInfo, sleepDelta: int, s: State, now: int)
    requires ValidInfo(info) && WellFormed(s.cluster)
    ensures Excused(info, s, Scheduled(now), ScheduledStep(info, sleepDelta, s, now))
  {
    if ScheduledStep(info, sleepDelta, s, now) == Interrupted {
      ScheduledMayOperate(info, s, now);
    }
  }

  lemma ForcedInterruption(info: SleepInfo, s: State, name: string, now: int, faults: Faults)
    requires ValidInfo(info) && WellFormed(s.cluster)
    ensures Excused(info, s, Forced(name, now, faults), ForcedStep(info, s, name, now, faults))
  {
    if ForcedStep(info, s, name, now, faults) == Interrupted {
      ForcedMayOperate(info, s, name, now, faults);
    }
  }

  /** A reconcile is interrupted only by an operation that fails, and rejected only by a
      Secret that does not parse. */
  lemma StepInterruption(info: SleepInfo, sleepDelta: int, s: State, e: Event)
    requires ValidInfo(info) && WellFormed(s.cluster) && !e.Created?
    ensures Excused(info, s, e, StepOutcome(info, sleepDelta, s, e))
  {
    match e
    case Scheduled(now) => ScheduledInterruption(info, sleepDelta, s, now);
    case Forced(name, now, faults) => ForcedInterruption(info, s, name, now, faults);
  }
}
