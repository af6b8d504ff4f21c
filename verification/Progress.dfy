/** Scheduled reconciles driven by their own requeue delays: they keep executing. */
module Progress {
  import opened JsonDocs
  import opened Resources
  import opened Schedule
  import opened SleepInfos
  import opened Controllers

  /** The gate of a scheduled reconcile opens. */
  ghost predicate Executes(info: SleepInfo, sleepDelta: int, s: State, now: int)
    requires ValidInfo(info)
  {
    var data := GetSleepInfoData(s.secret, info);
    data.Some? && GetNextSchedule(sleepDelta, data.value.current, data.value.next, data.value.last, now).execute
  }

  /** The time a completed reconcile asks to be run again at. */
  ghost function Aim(info: SleepInfo, sleepDelta: int, s: State, now: int): int
    requires ValidInfo(info) && WellFormed(s.cluster) && ScheduledStep(info, sleepDelta, s, now).Completed?
  {
    now + ScheduledStep(info, sleepDelta, s, now).requeueAfter
  }

  /** A time that is a tick of the operation the Secret says is next, after its timestamp. */
  ghost predicate IsNextTick(info: SleepInfo, secret: Option<Secret>, t: int)
  {
    var data := GetSleepInfoData(secret, info);
    && data.Some? && IsTick(data.value.current, t)
    && (data.value.last != ZERO_TIME ==> data.value.last < t)
  }

  /** The data of a reconcile: a sleep with the wake-up next if there is one, or a wake-up with
      the sleep next. */
  ghost predicate IsDataOf(info: SleepInfo, data: SleepInfoData)
  {
    || data == SleepNext(info, data.last, data.original)
    || (info.wakeUpAt.Some? && data == SleepInfoData(data.last, WakeUpOperation, info.wakeUpAt.value, info.sleepAt, data.original))
  }

  /** The operation that follows the one just done, by the Secret it leaves. */
  lemma NextOperation(info: SleepInfo, data: SleepInfoData, now: int, hasResource: bool, saved: map<string, RestorePatches>)
    requires IsDataOf(info, data)
    ensures var next := GetSleepInfoData(Some(UpsertedSecret(now, data.operation, hasResource, saved)), info);
            && next.Some? && next.value.last == TruncateToSecond(now)
            && (hasResource || data.operation.WakeUpOperation? ==> next.value.current == data.next)
            && (!hasResource && data.operation.SleepOperation? ==> next.value.current == data.current)
  {
  }

  lemma StoredShape(info: SleepInfo, secret: Option<Secret>)
    requires GetSleepInfoData(secret, info).Some?
    ensures IsDataOf(info, GetSleepInfoData(secret, info).value)
  {
  }

  /** What an executing reconcile leaves: the Secret it writes and the delay it asks for, with
      or without resources found. */
  ghost predicate Leaves(info: SleepInfo, sleepDelta: int, data: SleepInfoData, now: int, has: bool, saved: map<string, RestorePatches>,
                         secret: Option<Secret>, requeueAfter: int)
    requires ValidInfo(info) && IsDataOf(info, data)
  {
    var gate := GetNextSchedule(sleepDelta, data.current, data.next, data.last, now);
    && gate.execute
    && secret == Some(UpsertedSecret(now, data.operation, has, saved))
    && requeueAfter == if !has && data.operation.SleepOperation?
                       then SkipWakeUpIfSleepNotPerformed(data.current, gate.next, now) else gate.requeueAfter
  }

  /** The Secret an operation writes. */
  lemma OperateSecret(info: SleepInfo, c: Cluster, data: SleepInfoData, now: int) returns (saved: map<string, RestorePatches>)
    requires ValidInfo(info) && WellFormed(c) && Operate(info, c, data, now).Some?
    ensures Operate(info, c, data, now).value.1 == UpsertedSecret(now, data.operation, true, saved)
  {
    var secret := Operate(info, c, data, now).value.1;
    saved := if secret.original.Some? then secret.original.value else map[];
  }

  lemma ExecutedSecret(info: SleepInfo, sleepDelta: int, s: State, now: int) returns (saved: map<string, RestorePatches>)
    requires ValidInfo(info) && WellFormed(s.cluster) && Executes(info, sleepDelta, s, now)
    requires ScheduledStep(info, sleepDelta, s, now).Completed?
    ensures var out := ScheduledStep(info, sleepDelta, s, now); var data := GetSleepInfoData(s.secret, info).value;
            && IsDataOf(info, data)
            && Leaves(info, sleepDelta, data, now, MappingOf(info, s.cluster, data) != map[], saved, out.state.secret, out.requeueAfter)
  {
    var data := GetSleepInfoData(s.secret, info).value;
    StoredShape(info, s.secret);
    saved := map[];
    if MappingOf(info, s.cluster, data) != map[] {
      saved := OperateSecret(info, s.cluster, data, now);
    }
  }

  /** The delay leads to a tick of the operation that the Secret makes next. */
  lemma LeavesForNextTick(info: SleepInfo, sleepDelta: int, data: SleepInfoData, now: int, has: bool, saved: map<string, RestorePatches>,
                          secret: Option<Secret>, requeueAfter: int)
    requires ValidInfo(info) && sleepDelta >= 0 && IsDataOf(info, data)
    requires Leaves(info, sleepDelta, data, now, has, saved, secret, requeueAfter)
    ensures IsNextTick(info, secret, now + requeueAfter) && sleepDelta * SECOND < requeueAfter
  {
    NextOperation(info, data, now, has, saved);
  }

  /** An executing reconcile aims at a tick of the operation that follows. */
  lemma ExecutedAim(info: SleepInfo, sleepDelta: int, s: State, now: int)
    requires ValidInfo(info) && WellFormed(s.cluster) && sleepDelta >= 0 && Executes(info, sleepDelta, s, now)
    requires ScheduledStep(info, sleepDelta, s, now).Completed?
    ensures IsNextTick(info, ScheduledStep(info, sleepDelta, s, now).state.secret, Aim(info, sleepDelta, s, now))
    ensures now + sleepDelta * SECOND < Aim(info, sleepDelta, s, now)
  {
    var data := GetSleepInfoData(s.secret, info).value;
    var saved := ExecutedSecret(info, sleepDelta, s, now);
    var out := ScheduledStep(info, sleepDelta, s, now);
    LeavesForNextTick(info, sleepDelta, data, now, MappingOf(info, s.cluster, data) != map[], saved, out.state.secret, out.requeueAfter);
  }

  /** A closed gate waits for a tick of the operation the Secret makes next. */
  lemma AwaitedTick(info: SleepInfo, sleepDelta: int, secret: Option<Secret>, now: int)
    requires ValidInfo(info) && sleepDelta >= 0 && GetSleepInfoData(secret, info).Some?
    requires var data := GetSleepInfoData(secret, info).value;
             !GetNextSchedule(sleepDelta, data.current, data.next, data.last, now).execute
    ensures var data := GetSleepInfoData(secret, info).value;
            var gate := GetNextSchedule(sleepDelta, data.current, data.next, data.last, now);
            IsNextTick(info, secret, now + gate.requeueAfter) && now + sleepDelta * SECOND < now + gate.requeueAfter
  {
    var data := GetSleepInfoData(secret, info).value;
    GateTickPosition(sleepDelta, data.current, data.last, now);
    InDeltaIff(now, GateTick(sleepDelta, data.current, data.last, now), sleepDelta);
  }

  /** A reconcile that skips aims at the tick it is waiting for. */
  lemma SkippedAim(info: SleepInfo, sleepDelta: int, s: State, now: int)
    requires ValidInfo(info) && WellFormed(s.cluster) && sleepDelta >= 0 && !Executes(info, sleepDelta, s, now)
    requires ScheduledStep(info, sleepDelta, s, now).Completed?
    ensures ScheduledStep(info, sleepDelta, s, now).state == s
    ensures IsNextTick(info, s.secret, Aim(info, sleepDelta, s, now))
    ensures now + sleepDelta * SECOND < Aim(info, sleepDelta, s, now)
  {
    AwaitedTick(info, sleepDelta, s.secret, now);
  }

  /** At a tick of the next operation, or less than delta after it, the gate is open. */
  lemma OpenAtNextTick(info: SleepInfo, sleepDelta: int, s: State, t: int, now: int)
    requires ValidInfo(info) && sleepDelta >= 0 && IsNextTick(info, s.secret, t)
    requires t <= now < t + sleepDelta * SECOND
    ensures Executes(info, sleepDelta, s, now)
  {
    var data := GetSleepInfoData(s.secret, info).value;
    GateIff(sleepDelta, data.current, data.next, data.last, now);
    assert TickInWindow(data.current, data.last, now - sleepDelta * SECOND, now + sleepDelta * SECOND + MILLISECOND);
  }

  /** Reconciles each run when the one before asked, or less than delta late. In between the
      cluster may change in any way; the Secret is only written by these reconciles. */
  ghost predicate IsTimedRun(info: SleepInfo, sleepDelta: int, states: seq<State>, times: seq<int>)
    requires ValidInfo(info)
  {
    && |states| == |times|
    && (forall i | 0 <= i < |states| :: WellFormed(states[i].cluster))
    && (forall i | 0 <= i < |states| - 1 ::
          && ScheduledStep(info, sleepDelta, states[i], times[i]).Completed?
          && states[i + 1].secret == ScheduledStep(info, sleepDelta, states[i], times[i]).state.secret
          && Aim(info, sleepDelta, states[i], times[i]) <= times[i + 1] < Aim(info, sleepDelta, states[i], times[i]) + sleepDelta * SECOND)
  }

  /** Progress: every reconcile after the first executes, with or without resources found,
      and each more than delta after the one before. */
  lemma RequeueDrivenProgress(info: SleepInfo, sleepDelta: int, states: seq<State>, times: seq<int>, i: nat)
    requires ValidInfo(info) && sleepDelta >= 1 && IsTimedRun(info, sleepDelta, states, times) && i + 1 < |states|
    ensures Executes(info, sleepDelta, states[i + 1], times[i + 1])
    ensures times[i] + sleepDelta * SECOND < times[i + 1]
  {
    var s, now := states[i], times[i];
    assert ScheduledStep(info, sleepDelta, s, now).Completed?;
    if Executes(info, sleepDelta, s, now) {
      ExecutedAim(info, sleepDelta, s, now);
    } else {
      SkippedAim(info, sleepDelta, s, now);
    }
    OpenAtNextTick(info, sleepDelta, states[i + 1], Aim(info, sleepDelta, s, now), times[i + 1]);
  }

  // ---------------------------------------------------------------- no tick is passed over

  /** Unless it is a sleep that finds nothing, a reconcile comes back no later than the first
      tick, later than delta from now, of the operation its Secret makes next. */
  lemma LeavesForFirstTick(info: SleepInfo, sleepDelta: int, data: SleepInfoData, now: int, has: bool, saved: map<string, RestorePatches>,
                           secret: Option<Secret>, requeueAfter: int, t: int)
    requires ValidInfo(info) && sleepDelta >= 0 && IsDataOf(info, data)
    requires Leaves(info, sleepDelta, data, now, has, saved, secret, requeueAfter)
    requires has || data.operation.WakeUpOperation?
    requires now + sleepDelta * SECOND < t && IsNextTick(info, secret, t)
    ensures now + requeueAfter <= t
  {
    NextOperation(info, data, now, has, saved);
    GateAimsAtFirst(sleepDelta, data.current, data.next, data.last, now);
  }

  lemma WaitsForFirstTick(info: SleepInfo, sleepDelta: int, secret: Option<Secret>, now: int, t: int)
    requires ValidInfo(info) && sleepDelta >= 0 && IsNextTick(info, secret, t) && now - sleepDelta * SECOND < t
    requires var data := GetSleepInfoData(secret, info).value;
             !GetNextSchedule(sleepDelta, data.current, data.next, data.last, now).execute
    ensures var data := GetSleepInfoData(secret, info).value;
            now + GetNextSchedule(sleepDelta, data.current, data.next, data.last, now).requeueAfter <= t
  {
    var data := GetSleepInfoData(secret, info).value;
    GateAimsAtFirst(sleepDelta, data.current, data.next, data.last, now);
  }

  lemma AimIsFirst(info: SleepInfo, sleepDelta: int, s: State, now: int, t: int)
    requires ValidInfo(info) && WellFormed(s.cluster) && sleepDelta >= 0 && ScheduledStep(info, sleepDelta, s, now).Completed?
    requires !EmptySleep(info, sleepDelta, s, now)
    requires now + sleepDelta * SECOND < t && IsNextTick(info, ScheduledStep(info, sleepDelta, s, now).state.secret, t)
    ensures Aim(info, sleepDelta, s, now) <= t
  {
    var out := ScheduledStep(info, sleepDelta, s, now);
    var data := GetSleepInfoData(s.secret, info).value;
    if Executes(info, sleepDelta, s, now) {
      var saved := ExecutedSecret(info, sleepDelta, s, now);
      LeavesForFirstTick(info, sleepDelta, data, now, MappingOf(info, s.cluster, data) != map[], saved, out.state.secret, out.requeueAfter, t);
    } else {
      SkippedAim(info, sleepDelta, s, now);
      WaitsForFirstTick(info, sleepDelta, s.secret, now, t);
    }
  }

  /** A tick of the operation that is due, after the reconcile at `before` and up to `t`, is at
      `now` or less than delta back. */
  ghost predicate ServesFirst(info: SleepInfo, sleepDelta: int, secret: Option<Secret>, before: int, t: int, now: int)
  {
    exists first :: IsNextTick(info, secret, first) && before + sleepDelta * SECOND < first <= t
                    && first <= now < first + sleepDelta * SECOND
  }

  /** Every tick is served: in a timed run, between a reconcile that is not an empty sleep and
      the next one no tick goes by of the operation that is due; the next reconcile executes,
      at the first such tick or less than delta after it. */
  lemma EveryTickIsServed(info: SleepInfo, sleepDelta: int, states: seq<State>, times: seq<int>, i: nat, t: int)
    requires ValidInfo(info) && sleepDelta >= 1 && IsTimedRun(info, sleepDelta, states, times) && i + 1 < |states|
    requires !EmptySleep(info, sleepDelta, states[i], times[i])
    requires times[i] + sleepDelta * SECOND < t && IsNextTick(info, states[i + 1].secret, t)
    ensures times[i + 1] < t + sleepDelta * SECOND
    ensures ServesFirst(info, sleepDelta, states[i + 1].secret, times[i], t, times[i + 1])
    ensures Executes(info, sleepDelta, states[i + 1], times[i + 1])
  {
    var s, now := states[i], times[i];
    assert ScheduledStep(info, sleepDelta, s, now).Completed?;
    AimIsFirst(info, sleepDelta, s, now, t);
    RequeueDrivenProgress(info, sleepDelta, states, times, i);
    if Executes(info, sleepDelta, s, now) {
      ExecutedAim(info, sleepDelta, s, now);
    } else {
      SkippedAim(info, sleepDelta, s, now);
    }
    assert IsNextTick(info, states[i + 1].secret, Aim(info, sleepDelta, s, now));
  }

  // ---------------------------------------------------------------- on schedule

  /** A tick around now, up to delta and the truncated millisecond. */
  ghost predicate TickAround(schedule: Schedule, sleepDelta: int, now: int)
  {
    exists t :: IsTick(schedule, t) && now - sleepDelta * SECOND - MILLISECOND < t < now + sleepDelta * SECOND + MILLISECOND
  }

  /** The schedule of an operation. */
  ghost predicate RunsOn(info: SleepInfo, operation: Operation, schedule: Schedule)
  {
    if operation.SleepOperation? then schedule == info.sleepAt else info.wakeUpAt == Some(schedule)
  }

  lemma GateOpensAround(sleepDelta: int, current: Schedule, following: Schedule, last: int, now: int)
    requires ValidSchedule(current) && ValidSchedule(following) && sleepDelta >= 0
    requires GetNextSchedule(sleepDelta, current, following, last, now).execute
    ensures TickAround(current, sleepDelta, now)
  {
    GateIff(sleepDelta, current, following, last, now);
    if TickInWindow(current, last, now - sleepDelta * SECOND, now + sleepDelta * SECOND + MILLISECOND) {
      var t :| now - sleepDelta * SECOND < t < now + sleepDelta * SECOND + MILLISECOND && IsTick(current, t);
    } else {
      assert IsTick(current, Next(current, last));
    }
  }

  /** A scheduled reconcile sleeps only around a tick of the sleep schedule and wakes up only
      around one of the wake-up schedule. */
  lemma ActsOnSchedule(info: SleepInfo, sleepDelta: int, s: State, now: int)
    requires ValidInfo(info) && WellFormed(s.cluster) && sleepDelta >= 0
    requires ScheduledStep(info, sleepDelta, s, now).Completed?
    ensures ScheduledStep(info, sleepDelta, s, now).action.DidSleep? ==> TickAround(info.sleepAt, sleepDelta, now)
    ensures ScheduledStep(info, sleepDelta, s, now).action.DidWakeUp? ==>
              info.wakeUpAt.Some? && TickAround(info.wakeUpAt.value, sleepDelta, now)
  {
    if !ScheduledStep(info, sleepDelta, s, now).action.DidNothing? { ActionIsDue(info, sleepDelta, s, now); }
    if Executes(info, sleepDelta, s, now) {
      OpensAroundItsTick(info, sleepDelta, s.secret, now);
    }
  }

  lemma ActionIsDue(info: SleepInfo, sleepDelta: int, s: State, now: int)
    requires ValidInfo(info) && WellFormed(s.cluster) && ScheduledStep(info, sleepDelta, s, now).Completed?
    requires !ScheduledStep(info, sleepDelta, s, now).action.DidNothing?
    ensures Executes(info, sleepDelta, s, now)
    ensures ScheduledStep(info, sleepDelta, s, now).action == ActionOf(GetSleepInfoData(s.secret, info).value.operation)
  {
  }

  /** What is due is done, if there is anything to do it on. */
  lemma DueIsDone(info: SleepInfo, sleepDelta: int, s: State, now: int)
    requires ValidInfo(info) && WellFormed(s.cluster) && ScheduledStep(info, sleepDelta, s, now).Completed?
    requires Executes(info, sleepDelta, s, now) && MappingOf(info, s.cluster, GetSleepInfoData(s.secret, info).value) != map[]
    ensures ScheduledStep(info, sleepDelta, s, now).action == ActionOf(GetSleepInfoData(s.secret, info).value.operation)
  {
  }

  lemma OpensAroundItsTick(info: SleepInfo, sleepDelta: int, secret: Option<Secret>, now: int)
    requires ValidInfo(info) && sleepDelta >= 0 && GetSleepInfoData(secret, info).Some?
    requires var data := GetSleepInfoData(secret, info).value; GetNextSchedule(sleepDelta, data.current, data.next, data.last, now).execute
    ensures if GetSleepInfoData(secret, info).value.operation.SleepOperation? then TickAround(info.sleepAt, sleepDelta, now)
            else info.wakeUpAt.Some? && TickAround(info.wakeUpAt.value, sleepDelta, now)
  {
    var data := GetSleepInfoData(secret, info).value;
    DataRunsOn(info, secret);
    GateOpensAround(sleepDelta, data.current, data.next, data.last, now);
  }

  lemma DataRunsOn(info: SleepInfo, secret: Option<Secret>)
    requires GetSleepInfoData(secret, info).Some?
    ensures var data := GetSleepInfoData(secret, info).value; RunsOn(info, data.operation, data.current)
  {
  }

  /** When a reconcile executes, from the Secret and the schedules. Without a Secret, or one
      without data: exactly around a tick of the sleep schedule. Else: exactly around a tick,
      later than its timestamp, of the wake-up schedule if it says SLEEP and there is a wake-up
      time, and of the sleep schedule otherwise; or if the first tick after its timestamp is
      exactly delta back, up to the truncated millisecond. */
  lemma ReconcileExecutesIff(info: SleepInfo, sleepDelta: int, s: State, now: int)
    requires ValidInfo(info) && sleepDelta >= 0
    ensures var delta := sleepDelta * SECOND;
            if s.secret.None? || s.secret.value.NoData? then
              Executes(info, sleepDelta, s, now) <==>
              exists t :: IsTick(info.sleepAt, t) && now - delta < t < now + delta + MILLISECOND
            else if s.secret.value.scheduledAt.None? then !Executes(info, sleepDelta, s, now)
            else
              var last := s.secret.value.scheduledAt.value;
              var due := if s.secret.value.operation == Some(SleepOperation) && info.wakeUpAt.Some? then info.wakeUpAt.value else info.sleepAt;
              last != ZERO_TIME ==>
                (Executes(info, sleepDelta, s, now) <==>
                 || (exists t :: IsTick(due, t) && last < t && now - delta < t < now + delta + MILLISECOND)
                 || now - delta - MILLISECOND < Next(due, last) <= now - delta)
  {
    var data := GetSleepInfoData(s.secret, info);
    if data.Some? {
      GateIff(sleepDelta, data.value.current, data.value.next, data.value.last, now);
    }
  }

  // ---------------------------------------------------------------- a sleep that finds nothing

  /** A time `t` at which the operation of a schedule was due, later than delta from now and
      before the reconcile comes back. */
  ghost predicate PassesOver(info: SleepInfo, sleepDelta: int, s: State, now: int, schedule: Schedule, t: int)
    requires ValidInfo(info) && WellFormed(s.cluster) && ScheduledStep(info, sleepDelta, s, now).Completed?
  {
    now + sleepDelta * SECOND < t < Aim(info, sleepDelta, s, now) && IsTick(schedule, t)
  }

  /** An executing sleep that finds nothing. */
  ghost predicate EmptySleep(info: SleepInfo, sleepDelta: int, s: State, now: int)
    requires ValidInfo(info) && WellFormed(s.cluster)
  {
    && Executes(info, sleepDelta, s, now)
    && var data := GetSleepInfoData(s.secret, info).value;
       data.operation.SleepOperation? && MappingOf(info, s.cluster, data) == map[]
  }

  /** Where an empty sleep aims: past the next wake-up, or past the next sleep when there is
      no wake-up, at the sleep after it. */
  lemma EmptySleepAim(info: SleepInfo, sleepDelta: int, s: State, now: int)
    requires ValidInfo(info) && WellFormed(s.cluster) && EmptySleep(info, sleepDelta, s, now)
    ensures ScheduledStep(info, sleepDelta, s, now).Completed?
    ensures var from := now + sleepDelta * SECOND;
            Aim(info, sleepDelta, s, now) ==
            Next(info.sleepAt, Next(if info.wakeUpAt.Some? then info.wakeUpAt.value else info.sleepAt, from))
  {
    var saved := ExecutedSecret(info, sleepDelta, s, now);
  }

  /** An empty sleep means to skip the wake-up. It passes over a sleep as well, so that
      resources created meanwhile miss it, exactly when there is no wake-up or the next sleep
      comes no later than the next wake-up. */
  lemma EmptySleepSkipsASleepIff(info: SleepInfo, sleepDelta: int, s: State, now: int)
    requires ValidInfo(info) && WellFormed(s.cluster) && EmptySleep(info, sleepDelta, s, now)
    ensures ScheduledStep(info, sleepDelta, s, now).Completed?
    ensures var from := now + sleepDelta * SECOND;
            (exists t :: PassesOver(info, sleepDelta, s, now, info.sleepAt, t)) <==>
            info.wakeUpAt.None? || Next(info.sleepAt, from) <= Next(info.wakeUpAt.value, from)
  {
    EmptySleepAim(info, sleepDelta, s, now);
    var from := now + sleepDelta * SECOND;
    var first := Next(info.sleepAt, from);
    if info.wakeUpAt.None? || first <= Next(info.wakeUpAt.value, from) {
      assert PassesOver(info, sleepDelta, s, now, info.sleepAt, first);
    }
  }

  const EVERY_HOUR: Schedule := Schedule({0}, set h | 0 <= h < 24, set d | 0 <= d < 7)
  const EVERY_MORNING: Schedule := Schedule({0}, {8}, set d | 0 <= d < 7)

  /** With a sleep every hour and a wake-up every morning it always does. */
  lemma HourlySleepIsSkipped(info: SleepInfo, sleepDelta: int, s: State, now: int)
    requires ValidInfo(info) && WellFormed(s.cluster) && EmptySleep(info, sleepDelta, s, now)
    requires info.sleepAt == EVERY_HOUR && info.wakeUpAt == Some(EVERY_MORNING)
    ensures ScheduledStep(info, sleepDelta, s, now).Completed?
    ensures exists t :: PassesOver(info, sleepDelta, s, now, info.sleepAt, t)
  {
    EmptySleepSkipsASleepIff(info, sleepDelta, s, now);
    var morning := Next(EVERY_MORNING, now + sleepDelta * SECOND);
    assert IsTick(EVERY_HOUR, morning);
  }

  /** The wake-up it means to skip, it does skip. */
  lemma EmptySleepSkipsTheWakeUp(info: SleepInfo, sleepDelta: int, s: State, now: int)
    requires ValidInfo(info) && WellFormed(s.cluster) && EmptySleep(info, sleepDelta, s, now) && info.wakeUpAt.Some?
    ensures ScheduledStep(info, sleepDelta, s, now).Completed?
    ensures PassesOver(info, sleepDelta, s, now, info.wakeUpAt.value, Next(info.wakeUpAt.value, now + sleepDelta * SECOND))
  {
    EmptySleepAim(info, sleepDelta, s, now);
  }
}
