/** What every run of the two controllers keeps, whatever the patches are: which operation
    may run when, which objects are never touched, and that a forced execution acts once. */
module Discipline {
  import opened JsonDocs
  import opened ApiObjects
  import opened Selector
  import opened SleepDocs
  import opened Resources
  import opened Schedule
  import opened SleepInfos
  import opened Controllers

  // ---------------------------------------------------------------- operation discipline

  /** Restore patches are stored only while the operation type is SLEEP. */
  ghost predicate StoresOnlyAsleep(s: State) {
    s.secret.Some? && s.secret.value.Secret? && s.secret.value.original.Some? ==> IsAsleep(s.secret)
  }

  /** One step: a wake-up only out of sleep; with a wake-up time, a sleep only out of
      wakefulness, and a forced one always so; and afterwards the Secret says what was done. */
  ghost predicate Disciplined(info: SleepInfo, s: State, e: Event, s': State, action: Action)
  {
    && (action.DidWakeUp? ==> IsAsleep(s.secret) && info.wakeUpAt.Some? && !IsAsleep(s'.secret))
    && (action.DidSleep? ==> IsAsleep(s'.secret))
    && (action.DidSleep? && (info.wakeUpAt.Some? || e.Forced?) ==> !IsAsleep(s.secret))
    && (action.DidNothing? ==> s'.cluster == s.cluster)
    && (StoresOnlyAsleep(s) ==> StoresOnlyAsleep(s'))
  }

  lemma OperatedSecret(info: SleepInfo, s: State, data: SleepInfoData, now: int, s': State)
    requires ValidInfo(info) && WellFormed(s.cluster) && Operated(info, s, data, now, s')
    ensures IsAsleep(s'.secret) <==> data.operation.SleepOperation?
    ensures StoresOnlyAsleep(s')
  {
  }

  lemma ShapeIsDisciplined(info: SleepInfo, s: State, e: Event, s': State, action: Action)
    requires ValidInfo(info) && WellFormed(s.cluster) && StepShape(info, s, e, s', action)
    ensures Disciplined(info, s, e, s', action)
  {
    if data :| Acted(info, s, e, data, s', action) {
      OperatedSecret(info, s, data, e.now, s');
    }
  }

  lemma {:induction false} RunStoresOnlyAsleep(info: SleepInfo, sleepDelta: int, events: seq<Event>, states: seq<State>, n: nat)
    requires ValidInfo(info) && IsRun(info, sleepDelta, events, states) && n <= |events|
    ensures StoresOnlyAsleep(states[n])
    decreases n, 0
  {
    if n > 0 {
      RunStoresOnlyAsleep(info, sleepDelta, events, states, n - 1);
      OperationDiscipline(info, sleepDelta, events, states, n - 1);
    }
  }

  /** Over every run: wake-ups only while asleep, sleeps only while awake when there is a
      wake-up time or the sleep is forced, the cluster changes only by an operation, and
      restore patches are stored only while asleep. */
  lemma OperationDiscipline(info: SleepInfo, sleepDelta: int, events: seq<Event>, states: seq<State>, i: nat)
    requires ValidInfo(info) && IsRun(info, sleepDelta, events, states) && i < |events|
    ensures IsStep(info, sleepDelta, states[i], events[i], states[i + 1])
    ensures Disciplined(info, states[i], events[i], states[i + 1], StepOutcome(info, sleepDelta, states[i], events[i]).action)
    ensures StoresOnlyAsleep(states[i]) && StoresOnlyAsleep(states[i + 1])
    decreases i, 1
  {
    RunSteps(info, sleepDelta, events, states, i);
    var action := StepOutcome(info, sleepDelta, states[i], events[i]).action;
    StepHasShape(info, sleepDelta, states[i], events[i]);
    ShapeIsDisciplined(info, states[i], events[i], states[i + 1], action);
    RunStoresOnlyAsleep(info, sleepDelta, events, states, i);
  }

  // ---------------------------------------------------------------- non-interference

  /** Untargeted, not selected, or owned by a controller. */
  ghost predicate Spared(info: SleepInfo, k: Key, doc: Json)
  {
    k.target !in Targets(GetPatches(info)) || !Selected(info.filters, k.target, doc) || IsControlled(doc)
  }

  /** The object is still `doc` and no restore patch is stored for it. */
  ghost predicate Untouched(k: Key, doc: Json, s: State)
  {
    && k in s.cluster && s.cluster[k] == doc
    && (s.secret.Some? ==>
          && s.secret.value.Secret? && s.secret.value.replicas.None? && s.secret.value.cronJobs.None?
          && (s.secret.value.original.Some? ==> SavedFor(LoadFor(s.secret.value.original.value, k.target), k.name).None?))
  }

  lemma SparedEntry(info: SleepInfo, k: Key, c: Cluster, e: Entry)
    requires WellFormed(c) && k in c && Spared(info, k, c[k]) && k.target in Targets(GetPatches(info))
    requires SavedFor(e.restore, k.name).None?
    ensures SavedFor(SleepEntry(info.filters, k.target, e, c).restore, k.name).None?
  {
    SavesAt(OpsOf(e.text), c, k.target, ManagedKeys(info.filters, k.target, c), e.restore, k.name);
    assert k == Key(k.target, k.name);
  }

  lemma SparedSave(info: SleepInfo, k: Key, c: Cluster, m: Mapping, saved: map<string, RestorePatches>)
    requires WellFormed(c) && k in c && Spared(info, k, c[k])
    requires m.Keys <= Targets(GetPatches(info)) && (forall t | t in Targets(GetPatches(info)) :: DotFree(t.kind))
    requires k.target in m ==> SavedFor(m[k.target].restore, k.name).None?
    requires IsSaveOf(saved, SleepMapping(info.filters, m, c)) && DotFree(k.target.kind)
    ensures SavedFor(LoadFor(saved, k.target), k.name).None?
  {
    var after := SleepMapping(info.filters, m, c);
    if TargetString(k.target) in saved {
      var t :| t in after && TargetString(t) == TargetString(k.target) && saved[TargetString(k.target)] == after[t].restore;
      TargetStringInjective(t, k.target);
      SparedEntry(info, k, c, m[k.target]);
    }
  }

  /** One operation leaves a spared object and stores nothing for it. */
  lemma OperationSpares(info: SleepInfo, k: Key, s: State, data: SleepInfoData, now: int)
    requires ValidInfo(info) && WellFormed(s.cluster) && k in s.cluster && Spared(info, k, s.cluster[k])
    requires DotFree(k.target.kind) && SavedFor(LoadFor(data.original, k.target), k.name).None?
    requires Operate(info, s.cluster, data, now).Some?
    ensures var (cluster, secret) := Operate(info, s.cluster, data, now).value;
            Untouched(k, s.cluster[k], s.(cluster := cluster, secret := Some(secret)))
  {
    var m := MappingOf(info, s.cluster, data);
    MappingIsDotFree(info, s.cluster, data);
    if data.operation.SleepOperation? {
      SparedSave(info, k, s.cluster, m, SaveInfo(SleepMapping(info.filters, m, s.cluster)));
      assert SleepAt(info.filters, m, s.cluster, k) == s.cluster[k];
    } else {
      assert WakeAt(info.filters, m, s.cluster, k) == s.cluster[k];
    }
  }

  lemma LoadedNothing(info: SleepInfo, k: Key, doc: Json, s: State)
    requires Untouched(k, doc, s) && GetSleepInfoData(s.secret, info).Some?
    ensures SavedFor(LoadFor(GetSleepInfoData(s.secret, info).value.original, k.target), k.name).None?
  {
  }

  lemma ShapeSpares(info: SleepInfo, k: Key, doc: Json, s: State, e: Event, s': State, action: Action)
    requires ValidInfo(info) && WellFormed(s.cluster) && Untouched(k, doc, s) && Spared(info, k, doc) && DotFree(k.target.kind)
    requires StepShape(info, s, e, s', action)
    ensures Untouched(k, doc, s')
  {
    if data :| Acted(info, s, e, data, s', action) {
      LoadedNothing(info, k, doc, s);
      OperationSpares(info, k, s, data, e.now);
    }
  }

  lemma StepSpares(info: SleepInfo, sleepDelta: int, k: Key, doc: Json, s: State, e: Event, s': State)
    requires ValidInfo(info) && IsStep(info, sleepDelta, s, e, s')
    requires Untouched(k, doc, s) && Spared(info, k, doc) && DotFree(k.target.kind)
    ensures Untouched(k, doc, s')
  {
    StepHasShape(info, sleepDelta, s, e);
    ShapeSpares(info, k, doc, s, e, s', StepOutcome(info, sleepDelta, s, e).action);
  }

  lemma RunSpares(info: SleepInfo, sleepDelta: int, events: seq<Event>, states: seq<State>, i: nat, k: Key, doc: Json)
    requires ValidInfo(info) && IsRun(info, sleepDelta, events, states) && i < |events|
    requires Untouched(k, doc, states[i]) && Spared(info, k, doc) && DotFree(k.target.kind)
    ensures Untouched(k, doc, states[i + 1])
  {
    RunSteps(info, sleepDelta, events, states, i);
    StepSpares(info, sleepDelta, k, doc, states[i], events[i], states[i + 1]);
  }

  /** Non-interference: over every run, an object that at the start is of an untargeted kind,
      not selected, excluded or owned by a controller is never changed. */
  lemma {:induction false} NonInterference(info: SleepInfo, sleepDelta: int, events: seq<Event>, states: seq<State>, n: nat, k: Key)
    requires ValidInfo(info) && IsRun(info, sleepDelta, events, states) && n <= |events|
    requires k in states[0].cluster && Spared(info, k, states[0].cluster[k]) && DotFree(k.target.kind)
    ensures Untouched(k, states[0].cluster[k], states[n])
  {
    if n > 0 {
      NonInterference(info, sleepDelta, events, states, n - 1, k);
      RunSpares(info, sleepDelta, events, states, n - 1, k, states[0].cluster[k]);
    }
  }

  // ---------------------------------------------------------------- forced executions

  /** The Secret already says what the execution asks for. */
  predicate InPlace(s: State, name: string)
  {
    name in s.executions && (s.executions[name].operation.SleepOperation? <==> IsAsleep(s.secret))
  }

  lemma ProcessedStays(info: SleepInfo, sleepDelta: int, s: State, e: Event, s': State, name: string)
    requires ValidInfo(info) && IsStep(info, sleepDelta, s, e, s')
    requires name in s.executions && IsProcessed(s.executions[name])
    ensures name in s'.executions && s'.executions[name] == s.executions[name]
  {
    match e
    case Scheduled(now) => ScheduledLeavesExecutions(info, sleepDelta, s, now);
    case Forced(forced, now, faults) => ForcedLeavesProcessed(info, s, forced, now, faults, name);
    case Created(_, _, _) =>
  }

  lemma RunStepKeepsProcessed(info: SleepInfo, sleepDelta: int, events: seq<Event>, states: seq<State>, name: string, i: nat)
    requires ValidInfo(info) && IsRunFrom(info, sleepDelta, events, states) && i < |events|
    requires name in states[i].executions && IsProcessed(states[i].executions[name])
    ensures name in states[i + 1].executions && states[i + 1].executions[name] == states[i].executions[name]
  {
    RunSteps(info, sleepDelta, events, states, i);
    ProcessedStays(info, sleepDelta, states[i], events[i], states[i + 1], name);
  }

  /** A processed execution stays as it is, whatever happens. */
  lemma {:induction false} ProcessedIsFinal(info: SleepInfo, sleepDelta: int, events: seq<Event>, states: seq<State>, name: string, i: nat, n: nat)
    requires ValidInfo(info) && IsRunFrom(info, sleepDelta, events, states) && i <= n <= |events|
    requires name in states[i].executions && states[i].executions[name].phase != Pending
    ensures name in states[n].executions && states[n].executions[name] == states[i].executions[name]
    decreases n - i
  {
    if n > i {
      ProcessedIsFinal(info, sleepDelta, events, states, name, i, n - 1);
      RunStepKeepsProcessed(info, sleepDelta, events, states, name, n - 1);
    }
  }

  lemma ScheduledLeavesExecutions(info: SleepInfo, sleepDelta: int, s: State, now: int)
    requires ValidInfo(info) && WellFormed(s.cluster) && ScheduledStep(info, sleepDelta, s, now).Completed?
    ensures ScheduledStep(info, sleepDelta, s, now).state.executions == s.executions
  {
  }

  lemma ForcedLeavesProcessed(info: SleepInfo, s: State, name: string, now: int, faults: Faults, other: string)
    requires ValidInfo(info) && WellFormed(s.cluster) && ForcedStep(info, s, name, now, faults).Completed?
    requires other in s.executions && (other != name || IsProcessed(s.executions[name]))
    ensures var after := ForcedStep(info, s, name, now, faults).state.executions;
            other in after && after[other] == s.executions[other]
  {
  }

  /** With the effect in place, a forced reconcile writes at most its own status: it acts on
      neither cluster nor Secret, and a status write that succeeds ends the execution, as
      skipped if it was still pending. */
  lemma InPlaceIsIdle(info: SleepInfo, s: State, name: string, now: int, faults: Faults)
    requires ValidInfo(info) && WellFormed(s.cluster) && InPlace(s, name)
    ensures var out := ForcedStep(info, s, name, now, faults); var e := s.executions[name];
            && out.Completed? && out.action.DidNothing?
            && out.state.cluster == s.cluster && out.state.secret == s.secret
            && InPlace(out.state, name)
            && (!faults.executionStatus ==> IsProcessed(out.state.executions[name]))
            && (!faults.executionStatus && !IsProcessed(e) && e.sleepInfoName == info.name ==> out.state.executions[name].phase == Skipped)
            && (faults.executionStatus || IsProcessed(e) ==> out.state == s)
  {
  }

  /** No target of the SleepInfo lists any object. */
  ghost predicate NothingListed(info: SleepInfo, c: Cluster)
  {
    forall t | t in Targets(GetPatches(info)) :: ManagedKeys(info.filters, t, c) == {}
  }

  lemma EmptyMappingIff(info: SleepInfo, c: Cluster, data: SleepInfoData)
    ensures MappingOf(info, c, data) == map[] <==> NothingListed(info, c)
  {
    var m := MappingOf(info, c, data);
    forall t | t in Targets(GetPatches(info)) ensures t in m <==> ManagedKeys(info.filters, t, c) != {} {
      PatchForIsLast(GetPatches(info), t);
    }
    if m != map[] {
      var t :| t in m;
    }
  }

  /** The execution has had its effect: the effect is in place, or there is nothing left to
      have it on. `recorded` says that its own status write went through. */
  ghost predicate HasActed(info: SleepInfo, s: State, name: string, recorded: bool)
  {
    && name in s.executions
    && var e := s.executions[name];
       && e.sleepInfoName == info.name
       && (e.operation.WakeUpOperation? ==> info.wakeUpAt.Some?)
       && (if recorded then e.phase == Succeeded else e.phase == Pending || e.phase == Skipped)
       && (InPlace(s, name) || NothingListed(info, s.cluster))
  }

  /** Acting puts the effect in place, even if the status writes that follow are refused; the
      execution succeeds exactly when they are not. */
  lemma ActingPutsInPlace(info: SleepInfo, s: State, name: string, now: int, faults: Faults)
    requires ValidInfo(info) && WellFormed(s.cluster)
    requires var out := ForcedStep(info, s, name, now, faults); out.Completed? && !out.action.DidNothing?
    ensures var after := ForcedStep(info, s, name, now, faults).state;
            && name in s.executions && !InPlace(s, name) && InPlace(after, name)
            && HasActed(info, after, name, !Unrecorded(faults))
            && after.executions[name].operation == s.executions[name].operation
            && (after.executions[name].phase == Succeeded <==> !Unrecorded(faults))
  {
    var data := ApplyExecutionOverride(GetSleepInfoData(s.secret, info).value, s.executions[name].operation, info).value;
    OperateSays(info, s.cluster, data, now);
  }

  /** The Secret of an operation says which one it was. */
  lemma OperateSays(info: SleepInfo, c: Cluster, data: SleepInfoData, now: int)
    requires ValidInfo(info) && WellFormed(c) && Operate(info, c, data, now).Some?
    ensures IsAsleep(Some(Operate(info, c, data, now).value.1)) <==> data.operation.SleepOperation?
    ensures var secret := Operate(info, c, data, now).value.1;
            secret.Secret? && secret.operation == Some(data.operation) && secret.scheduledAt == Some(TruncateToSecond(now))
  {
  }

  /** An execution that has had its effect is idle from then on. */
  lemma ActedIsIdle(info: SleepInfo, s: State, name: string, now: int, faults: Faults, recorded: bool)
    requires ValidInfo(info) && WellFormed(s.cluster) && HasActed(info, s, name, recorded)
    requires ForcedStep(info, s, name, now, faults).Completed?
    ensures var out := ForcedStep(info, s, name, now, faults);
            && out.action.DidNothing? && out.state.cluster == s.cluster && out.state.secret == s.secret
            && HasActed(info, out.state, name, recorded)
            && out.state.executions[name].operation == s.executions[name].operation
            && (!faults.executionStatus ==> out.state.executions[name].phase == if recorded then Succeeded else Skipped)
  {
    if InPlace(s, name) {
      InPlaceIsIdle(info, s, name, now, faults);
    } else if !IsProcessed(s.executions[name]) {
      var data := ApplyExecutionOverride(GetSleepInfoData(s.secret, info).value, s.executions[name].operation, info).value;
      EmptyMappingIff(info, s.cluster, data);
    }
  }

  function Opposite(operation: Operation): Action {
    if operation.SleepOperation? then DidWakeUp else DidSleep
  }

  /** A step that is not the opposite operation leaves the effect in place, or nothing to
      have it on. */
  lemma ShapeKeepsEffect(info: SleepInfo, s: State, e: Event, s': State, action: Action, name: string)
    requires ValidInfo(info) && WellFormed(s.cluster) && StepShape(info, s, e, s', action)
    requires name in s.executions && name in s'.executions && s'.executions[name].operation == s.executions[name].operation
    requires InPlace(s, name) || NothingListed(info, s.cluster)
    requires action != Opposite(s.executions[name].operation)
    ensures InPlace(s', name) || NothingListed(info, s'.cluster)
  {
    if FoundNothing(info, s, e, s', action) {
      EmptyMappingIff(info, s.cluster, GetSleepInfoData(s.secret, info).value);
    } else if data :| Acted(info, s, e, data, s', action) {
      EmptyMappingIff(info, s.cluster, data);
      OperatedSecret(info, s, data, e.now, s');
    }
  }

  /** Steps other than its own leave an execution as it is. */
  lemma OthersLeaveExecution(info: SleepInfo, sleepDelta: int, s: State, e: Event, s': State, name: string)
    requires ValidInfo(info) && IsStep(info, sleepDelta, s, e, s')
    requires name in s.executions && !(e.Forced? && e.name == name)
    ensures name in s'.executions && s'.executions[name] == s.executions[name]
  {
    match e
    case Scheduled(now) => ScheduledLeavesExecutions(info, sleepDelta, s, now);
    case Forced(forced, now, faults) => ForcedLeavesProcessed(info, s, forced, now, faults, name);
    case Created(_, _, _) =>
  }

  lemma StepKeepsActed(info: SleepInfo, sleepDelta: int, s: State, e: Event, s': State, action: Action, name: string, recorded: bool)
    requires ValidInfo(info) && IsStep(info, sleepDelta, s, e, s') && StepOutcome(info, sleepDelta, s, e).action == action
    requires HasActed(info, s, name, recorded) && action != Opposite(s.executions[name].operation)
    ensures HasActed(info, s', name, recorded) && s'.executions[name].operation == s.executions[name].operation
  {
    if e.Forced? && e.name == name {
      ActedIsIdle(info, s, name, e.now, e.faults, recorded);
    } else {
      OthersLeaveExecution(info, sleepDelta, s, e, s', name);
      StepHasShape(info, sleepDelta, s, e);
      ShapeKeepsEffect(info, s, e, s', action, name);
    }
  }

  // ---------------------------------------------------------------- at most once, over runs

  ghost predicate ActionAt(info: SleepInfo, sleepDelta: int, s: State, e: Event, action: Action)
    requires ValidInfo(info)
  {
    && WellFormed(s.cluster)
    && StepOutcome(info, sleepDelta, s, e).Completed?
    && StepOutcome(info, sleepDelta, s, e).action == action
  }

  ghost predicate ActsAs(info: SleepInfo, sleepDelta: int, events: seq<Event>, states: seq<State>, actions: seq<Action>, i: nat)
    requires ValidInfo(info) && i < |events| == |actions| < |states|
  {
    ActionAt(info, sleepDelta, states[i], events[i], actions[i])
  }

  /** A run together with what each of its steps did. */
  ghost predicate IsTrace(info: SleepInfo, sleepDelta: int, events: seq<Event>, states: seq<State>, actions: seq<Action>)
    requires ValidInfo(info)
  {
    && IsRunFrom(info, sleepDelta, events, states) && |actions| == |events|
    && forall i: nat | i < |events| :: ActsAs(info, sleepDelta, events, states, actions, i)
  }

  lemma TraceSteps(info: SleepInfo, sleepDelta: int, events: seq<Event>, states: seq<State>, actions: seq<Action>, i: nat)
    requires ValidInfo(info) && IsTrace(info, sleepDelta, events, states, actions) && i < |events|
    ensures IsStep(info, sleepDelta, states[i], events[i], states[i + 1])
    ensures StepOutcome(info, sleepDelta, states[i], events[i]).action == actions[i]
  {
    RunSteps(info, sleepDelta, events, states, i);
    assert ActsAs(info, sleepDelta, events, states, actions, i);
  }

  lemma TraceKeepsActed(info: SleepInfo, sleepDelta: int, events: seq<Event>, states: seq<State>, actions: seq<Action>,
                        name: string, recorded: bool, j: nat)
    requires ValidInfo(info) && IsTrace(info, sleepDelta, events, states, actions) && j < |events|
    requires HasActed(info, states[j], name, recorded) && actions[j] != Opposite(states[j].executions[name].operation)
    ensures HasActed(info, states[j + 1], name, recorded)
    ensures states[j + 1].executions[name].operation == states[j].executions[name].operation
  {
    TraceSteps(info, sleepDelta, events, states, actions, j);
    StepKeepsActed(info, sleepDelta, states[j], events[j], states[j + 1], actions[j], name, recorded);
  }

  lemma {:induction false} ActedThroughout(info: SleepInfo, sleepDelta: int, events: seq<Event>, states: seq<State>, actions: seq<Action>,
                                           name: string, recorded: bool, i: nat, n: nat)
    requires ValidInfo(info) && IsTrace(info, sleepDelta, events, states, actions) && i <= n <= |events|
    requires HasActed(info, states[i], name, recorded)
    requires forall j | i <= j < n :: actions[j] != Opposite(states[i].executions[name].operation)
    ensures HasActed(info, states[n], name, recorded)
    ensures states[n].executions[name].operation == states[i].executions[name].operation
    decreases n - i
  {
    if i < n {
      ActedThroughout(info, sleepDelta, events, states, actions, name, recorded, i, n - 1);
      TraceKeepsActed(info, sleepDelta, events, states, actions, name, recorded, n - 1);
    }
  }

  /** The step is a forced reconcile of the execution. */
  predicate IsAttempt(e: Event, name: string) { e.Forced? && e.name == name }

  lemma AttemptActs(info: SleepInfo, sleepDelta: int, events: seq<Event>, states: seq<State>, actions: seq<Action>, name: string, i: nat)
    requires ValidInfo(info) && IsTrace(info, sleepDelta, events, states, actions) && i < |events|
    requires IsAttempt(events[i], name) && actions[i] != DidNothing
    ensures HasActed(info, states[i + 1], name, !Unrecorded(events[i].faults))
  {
    TraceSteps(info, sleepDelta, events, states, actions, i);
    ActingPutsInPlace(info, states[i], name, events[i].now, events[i].faults);
  }

  lemma AttemptIsIdle(info: SleepInfo, sleepDelta: int, events: seq<Event>, states: seq<State>, actions: seq<Action>,
                      name: string, recorded: bool, n: nat)
    requires ValidInfo(info) && IsTrace(info, sleepDelta, events, states, actions) && n < |events|
    requires HasActed(info, states[n], name, recorded) && IsAttempt(events[n], name)
    ensures actions[n] == DidNothing && states[n + 1].cluster == states[n].cluster && states[n + 1].secret == states[n].secret
    ensures name in states[n + 1].executions
    ensures !events[n].faults.executionStatus ==> states[n + 1].executions[name].phase == if recorded then Succeeded else Skipped
  {
    TraceSteps(info, sleepDelta, events, states, actions, n);
    ActedIsIdle(info, states[n], name, events[n].now, events[n].faults, recorded);
  }

  /** At most once: in every run, after a step `i` at which an execution acts, and as long as
      the opposite operation is not carried out, every further reconcile `n` of the execution
      leaves cluster and Secret alone, whatever else happens in between; and one whose status
      write goes through ends it. It ends as succeeded exactly when the status writes of the
      step that acted went through, and else as skipped. */
  lemma ActsAtMostOnce(info: SleepInfo, sleepDelta: int, events: seq<Event>, states: seq<State>, actions: seq<Action>,
                       name: string, i: nat, n: nat)
    requires ValidInfo(info) && IsTrace(info, sleepDelta, events, states, actions) && i < n < |events|
    requires IsAttempt(events[i], name) && actions[i] != DidNothing
    requires name in states[i + 1].executions
    requires forall j | i < j < n :: actions[j] != Opposite(states[i + 1].executions[name].operation)
    requires IsAttempt(events[n], name)
    ensures actions[n] == DidNothing && states[n + 1].cluster == states[n].cluster && states[n + 1].secret == states[n].secret
    ensures name in states[n].executions && (states[n].executions[name].phase == Succeeded <==> !Unrecorded(events[i].faults))
    ensures name in states[n + 1].executions
    ensures !events[n].faults.executionStatus ==>
              states[n + 1].executions[name].phase == if Unrecorded(events[i].faults) then Skipped else Succeeded
  {
    var recorded := !Unrecorded(events[i].faults);
    AttemptActs(info, sleepDelta, events, states, actions, name, i);
    ActedThroughout(info, sleepDelta, events, states, actions, name, recorded, i + 1, n);
    AttemptIsIdle(info, sleepDelta, events, states, actions, name, recorded, n);
  }

  // ---------------------------------------------------------------- how an execution ends

  /** How an attempt ends an execution that was not processed yet. If it acts, as succeeded; else
      as failed for a SleepInfo that is not there or has no wake-up to wake at, and as skipped
      otherwise; and where its status write is refused, it leaves the execution as it was. */
  lemma AttemptEnds(info: SleepInfo, s: State, name: string, now: int, faults: Faults)
    requires ValidInfo(info) && WellFormed(s.cluster) && ForcedStep(info, s, name, now, faults).Completed?
    requires name in s.executions && s.executions[name].phase == Pending
    ensures var out := ForcedStep(info, s, name, now, faults); var e := s.executions[name];
            && name in out.state.executions
            && var after := out.state.executions[name];
               var refused := if out.action.DidNothing? then faults.executionStatus else Unrecorded(faults);
               if refused then after == e
               else
                 && after.phase == (if !out.action.DidNothing? then Succeeded
                                    else if e.sleepInfoName != info.name then Failed
                                    else if e.operation.WakeUpOperation? && IsAsleep(s.secret) && info.wakeUpAt.None? then Failed
                                    else Skipped)
                 && after.startTime == (if e.startTime.Some? then e.startTime else Some(now))
                 && after.completionTime == Some(now)
                 && after.operation == e.operation && after.sleepInfoName == e.sleepInfoName
  {
  }

  /** When an attempt acts: exactly when the execution is pending, names this SleepInfo, asks for
      the opposite of what is in place and for nothing the SleepInfo cannot do, and some target
      lists an object. */
  lemma AttemptActsIff(info: SleepInfo, s: State, name: string, now: int, faults: Faults)
    requires ValidInfo(info) && WellFormed(s.cluster) && ForcedStep(info, s, name, now, faults).Completed?
    ensures !ForcedStep(info, s, name, now, faults).action.DidNothing? <==>
            && name in s.executions && s.executions[name].phase == Pending && s.executions[name].sleepInfoName == info.name
            && (s.executions[name].operation.SleepOperation? <==> !IsAsleep(s.secret))
            && (s.executions[name].operation.WakeUpOperation? ==> info.wakeUpAt.Some?)
            && !NothingListed(info, s.cluster)
  {
    var stored := GetSleepInfoData(s.secret, info);
    if name in s.executions && stored.Some? {
      var data := ApplyExecutionOverride(stored.value, s.executions[name].operation, info);
      if data.Some? { EmptyMappingIff(info, s.cluster, data.value); }
    }
  }

  /** What the message of an execution says is so. */
  ghost predicate MessageHolds(info: SleepInfo, s: State, e: Execution, message: Message, acted: bool)
  {
    match message
    case NoMessage => false
    case SleepInfoNotFound => e.sleepInfoName != info.name
    case NotAsleep => e.operation.WakeUpOperation? && !IsAsleep(s.secret)
    case AlreadyAsleep => e.operation.SleepOperation? && IsAsleep(s.secret)
    case NoWakeUpAt => e.operation.WakeUpOperation? && info.wakeUpAt.None?
    case NoResources => NothingListed(info, s.cluster)
    case Executed => acted
  }

  lemma NoResourcesMeansEmpty(info: SleepInfo, s: State, name: string, now: int, faults: Faults)
    requires ValidInfo(info) && WellFormed(s.cluster) && ForcedStep(info, s, name, now, faults).Completed?
    requires name in s.executions && s.executions[name].phase == Pending
    requires var after := ForcedStep(info, s, name, now, faults).state.executions;
             name in after && after[name].phase != Pending && after[name].message == NoResources
    ensures NothingListed(info, s.cluster)
  {
    var data := ApplyExecutionOverride(GetSleepInfoData(s.secret, info).value, s.executions[name].operation, info).value;
    EmptyMappingIff(info, s.cluster, data);
  }

  lemma MessageIsTrue(info: SleepInfo, s: State, name: string, now: int, faults: Faults)
    requires ValidInfo(info) && WellFormed(s.cluster) && ForcedStep(info, s, name, now, faults).Completed?
    requires name in s.executions && s.executions[name].phase == Pending
    ensures var out := ForcedStep(info, s, name, now, faults);
            name in out.state.executions &&
            (out.state.executions[name].phase != Pending ==>
               MessageHolds(info, s, s.executions[name], out.state.executions[name].message, !out.action.DidNothing?))
  {
    var after := ForcedStep(info, s, name, now, faults).state.executions;
    if name in after && after[name].phase != Pending && after[name].message == NoResources {
      NoResourcesMeansEmpty(info, s, name, now, faults);
    }
  }

  /** An attempt that acts and whose status writes go through. */
  predicate Succeeds(e: Event, action: Action, name: string)
  {
    IsAttempt(e, name) && action != DidNothing && !Unrecorded(e.faults)
  }

  predicate HasSucceeded(s: State, name: string) { name in s.executions && s.executions[name].phase == Succeeded }

  lemma StepSucceedsIff(info: SleepInfo, sleepDelta: int, s: State, e: Event, s': State, action: Action, name: string)
    requires ValidInfo(info) && IsStep(info, sleepDelta, s, e, s') && StepOutcome(info, sleepDelta, s, e).action == action
    ensures HasSucceeded(s', name) <==> HasSucceeded(s, name) || Succeeds(e, action, name)
  {
    if IsAttempt(e, name) {
      if name in s.executions && s.executions[name].phase == Pending {
        AttemptEnds(info, s, name, e.now, e.faults);
      }
    } else if name in s.executions {
      OthersLeaveExecution(info, sleepDelta, s, e, s', name);
    } else {
      NoneAppearsSucceeded(info, sleepDelta, s, e, s', name);
    }
  }

  lemma NoneAppearsSucceeded(info: SleepInfo, sleepDelta: int, s: State, e: Event, s': State, name: string)
    requires ValidInfo(info) && IsStep(info, sleepDelta, s, e, s') && name !in s.executions && !IsAttempt(e, name)
    ensures !HasSucceeded(s', name)
  {
    match e
    case Scheduled(now) => ScheduledLeavesExecutions(info, sleepDelta, s, now);
    case Forced(forced, now, faults) =>
      ForcedNamesStay(info, s, forced, now, faults);
    case Created(_, _, _) =>
  }

  lemma ForcedNamesStay(info: SleepInfo, s: State, name: string, now: int, faults: Faults)
    requires ValidInfo(info) && WellFormed(s.cluster) && ForcedStep(info, s, name, now, faults).Completed?
    ensures ForcedStep(info, s, name, now, faults).state.executions.Keys == s.executions.Keys
  {
  }

  lemma TraceSucceedsIff(info: SleepInfo, sleepDelta: int, events: seq<Event>, states: seq<State>, actions: seq<Action>, name: string, i: nat)
    requires ValidInfo(info) && IsTrace(info, sleepDelta, events, states, actions) && i < |events|
    ensures HasSucceeded(states[i + 1], name) <==> HasSucceeded(states[i], name) || Succeeds(events[i], actions[i], name)
  {
    TraceSteps(info, sleepDelta, events, states, actions, i);
    StepSucceedsIff(info, sleepDelta, states[i], events[i], states[i + 1], actions[i], name);
  }

  /** Over every run: an execution has succeeded exactly if it had at the start, or some step was
      an attempt at it that acted and whose status writes went through. */
  lemma {:induction false} SucceededIff(info: SleepInfo, sleepDelta: int, events: seq<Event>, states: seq<State>, actions: seq<Action>,
                                        name: string, n: nat)
    requires ValidInfo(info) && IsTrace(info, sleepDelta, events, states, actions) && n <= |events|
    ensures HasSucceeded(states[n], name) <==>
            HasSucceeded(states[0], name) || exists i | 0 <= i < n :: Succeeds(events[i], actions[i], name)
  {
    if n > 0 {
      SucceededIff(info, sleepDelta, events, states, actions, name, n - 1);
      TraceSucceedsIff(info, sleepDelta, events, states, actions, name, n - 1);
      if i :| 0 <= i < n && Succeeds(events[i], actions[i], name) && i != n - 1 {
        assert 0 <= i < n - 1 && Succeeds(events[i], actions[i], name);
      }
    }
  }

  // ---------------------------------------------------------------- the status of the SleepInfo

  /** The status names the operation the Secret names, if any, and the time it was done. */
  predicate Mirrors(status: Status, secret: Option<Secret>)
  {
    if secret.None? || secret.value.NoData? then status.operation.None?
    else status.operation == secret.value.operation && secret.value.scheduledAt == Some(TruncateToSecond(status.lastSchedule))
  }

  /** A scheduled reconcile changes nothing, or leaves a status that mirrors its Secret. */
  lemma ScheduledMirrors(info: SleepInfo, sleepDelta: int, s: State, now: int)
    requires ValidInfo(info) && WellFormed(s.cluster) && ScheduledStep(info, sleepDelta, s, now).Completed?
    ensures var s' := ScheduledStep(info, sleepDelta, s, now).state; s' == s || Mirrors(s'.status, s'.secret)
  {
    var data := GetSleepInfoData(s.secret, info).value;
    if Operate(info, s.cluster, data, now).Some? { OperateSays(info, s.cluster, data, now); }
  }

  /** So does a forced one whose write of that status goes through. */
  lemma ForcedMirrors(info: SleepInfo, s: State, name: string, now: int, faults: Faults)
    requires ValidInfo(info) && WellFormed(s.cluster) && ForcedStep(info, s, name, now, faults).Completed?
    requires !faults.infoStatus
    ensures var s' := ForcedStep(info, s, name, now, faults).state;
            (s'.status == s.status && s'.secret == s.secret) || Mirrors(s'.status, s'.secret)
  {
    if !ForcedStep(info, s, name, now, faults).action.DidNothing? {
      var data := ApplyExecutionOverride(GetSleepInfoData(s.secret, info).value, s.executions[name].operation, info).value;
      OperateSays(info, s.cluster, data, now);
    }
  }

  lemma RunStepMirrors(info: SleepInfo, sleepDelta: int, events: seq<Event>, states: seq<State>, i: nat)
    requires ValidInfo(info) && IsRunFrom(info, sleepDelta, events, states) && i < |events|
    requires Mirrors(states[i].status, states[i].secret) && !(events[i].Forced? && events[i].faults.infoStatus)
    ensures Mirrors(states[i + 1].status, states[i + 1].secret)
  {
    RunSteps(info, sleepDelta, events, states, i);
    match events[i]
    case Scheduled(now) => ScheduledMirrors(info, sleepDelta, states[i], now);
    case Forced(name, now, faults) => ForcedMirrors(info, states[i], name, now, faults);
    case Created(_, _, _) =>
  }

  /** Over every run in which no write of it is refused, the status of the SleepInfo mirrors the
      Secret: it names an operation exactly when the Secret does, and the same one. */
  lemma {:induction false} StatusMirrorsSecret(info: SleepInfo, sleepDelta: int, events: seq<Event>, states: seq<State>, n: nat)
    requires ValidInfo(info) && IsRunFrom(info, sleepDelta, events, states) && n <= |events|
    requires Mirrors(states[0].status, states[0].secret)
    requires forall i | 0 <= i < n :: !(events[i].Forced? && events[i].faults.infoStatus)
    ensures Mirrors(states[n].status, states[n].secret)
  {
    if n > 0 {
      StatusMirrorsSecret(info, sleepDelta, events, states, n - 1);
      RunStepMirrors(info, sleepDelta, events, states, n - 1);
    }
  }
}
