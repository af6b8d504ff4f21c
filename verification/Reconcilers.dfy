/** The two controllers as they run: each reads the Secret and the cluster, and writes
    cluster, Secret and statuses one after the other. */
module Reconcilers {
  import opened JsonDocs
  import opened Selector
  import opened Resources
  import opened ManagedResources
  import opened ManagedResourceSets
  import opened Schedule
  import opened SleepInfos
  import opened Controllers

  class Reconciler {
    const info: SleepInfo
    const sleepDelta: int
    const server: ApiServer
    var secret: Option<Secret>
    var executions: map<string, Execution>
    var status: Status

    constructor (info: SleepInfo, sleepDelta: int, server: ApiServer, executions: map<string, Execution>, status: Status)
      requires ValidInfo(info) && WellFormed(server.objects) && Fits(info.filters, Targets(GetPatches(info)), server.objects)
      ensures Valid() && this.info == info && this.sleepDelta == sleepDelta
      ensures this.server == server && Current() == State(server.objects, None, executions, status)
    {
      this.info := info;
      this.sleepDelta := sleepDelta;
      this.server := server;
      this.secret := None;
      this.executions := executions;
      this.status := status;
    }

    ghost predicate Valid()
      reads this, server
    {
      ValidInfo(info) && WellFormed(server.objects) && Fits(info.filters, Targets(GetPatches(info)), server.objects)
    }

    ghost function Current(): State
      reads this, server
    {
      State(server.objects, secret, executions, status)
    }

    // ---------------------------------------------------------------- writes

    /** The resources of this SleepInfo, with the mapping `m`: every target has objects, and
        the lists of the targets `todo` need no refresh. */
    ghost predicate Holds(resources: ManagedResourceSet, m: Mapping, todo: set<PatchTarget>)
      reads resources, resources.server, resources.resMapping.Values
    {
      && resources.Valid() && resources.server == server && resources.filters == info.filters
      && resources.Ready(todo) && resources.Mapping() == m
    }

    /** The restore patches the Secret is to hold. */
    method Originals(resources: ManagedResourceSet, ghost m: Mapping) returns (saved: map<string, RestorePatches>)
      requires Holds(resources, m, {}) && AllDotFree(m)
      ensures saved == SaveInfo(m)
    {
      saved := resources.GetOriginalInfoToSave();
      SaveIsUnique(saved, SaveInfo(m), m);
    }

    /** The Secret to write. */
    method NewSecret(now: int, operation: Operation, resources: ManagedResourceSet, ghost m: Mapping) returns (written: Secret)
      requires Holds(resources, m, {}) && AllDotFree(m)
      ensures written == UpsertedSecret(now, operation, m != map[], SaveInfo(m))
    {
      var has := resources.HasResource();
      var saved := map[];
      if has && operation.SleepOperation? {
        saved := Originals(resources, m);
      }
      written := Secret(Some(TruncateToSecond(now)),
                        if has then Some(operation) else None,
                        if has && operation.SleepOperation? then Some(saved) else None,
                        None, None);
    }

    /** Writes the Secret whole: whatever the operation does not store is gone. */
    method UpsertSecret(now: int, operation: Operation, resources: ManagedResourceSet, ghost m: Mapping)
      requires Holds(resources, m, {}) && AllDotFree(m)
      modifies this`secret
      ensures Holds(resources, m, {})
      ensures secret == Some(UpsertedSecret(now, operation, m != map[], SaveInfo(m)))
    {
      var written := NewSecret(now, operation, resources, m);
      secret := Some(written);
    }

    method HandleSleepInfoStatus(now: int, operation: Operation, resources: ManagedResourceSet,
                                 ghost m: Mapping, ghost todo: set<PatchTarget>)
      requires Holds(resources, m, todo)
      modifies this`status
      ensures Holds(resources, m, todo)
      ensures status == StatusAfter(now, operation, m)
    {
      var has := resources.HasResource();
      status := Status(now, if has then Some(operation) else None);
    }

    /** Writes the status of an execution, unless the server refuses the write. */
    method UpdateExecutionStatus(name: string, now: int, refused: bool, phase: Phase, message: Message)
      requires name in executions
      modifies this`executions
      ensures Current() == WithPhase(old(Current()), name, now, refused, phase, message)
    {
      if !refused {
        var e := executions[name];
        if e.startTime.None? {
          e := e.(startTime := Some(now));
        }
        e := e.(completionTime := Some(now), phase := phase, message := message);
        executions := executions[name := e];
      }
    }

    // ---------------------------------------------------------------- the operation

    /** Lists the targets for the data of a reconcile. */
    method Find(data: SleepInfoData, ghost m: Mapping) returns (resources: ManagedResourceSet, has: bool)
      requires Valid() && m == MappingOf(info, server.objects, data)
      ensures fresh(resources) && fresh(resources.resMapping.Values)
      ensures Holds(resources, m, resources.resMapping.Keys) && Holds(resources, m, {})
      ensures has <==> m != map[]
    {
      resources := NewResources(server, GetPatches(info), info.filters, data.original);
      has := resources.HasResource();
    }

    /** What an interrupted operation may have done to the cluster. */
    ghost predicate Partly(data: SleepInfoData, c: Cluster, objects: Cluster)
      requires WellFormed(c)
    {
      var m := MappingOf(info, c, data);
      if data.operation.SleepOperation? then PartlySlept(info.filters, m, c, objects)
      else PartlyWoken(info.filters, m, c, objects)
    }

    /** Sleep or WakeUp. */
    method Run(operation: Operation, resources: ManagedResourceSet, ghost m: Mapping, ghost c: Cluster) returns (err: bool)
      requires Valid() && Holds(resources, m, resources.resMapping.Keys) && c == server.objects
      modifies server, resources.resMapping.Values
      ensures Valid()
      ensures if operation.SleepOperation? then
                && (err <==> SleepFails(info.filters, m, c))
                && (!err ==> server.objects == SleepCluster(info.filters, m, c)
                             && Holds(resources, SleepMapping(info.filters, m, c), {}))
                && (err ==> PartlySlept(info.filters, m, c, server.objects))
              else
                && (err <==> WakeFails(info.filters, m, c))
                && (!err ==> server.objects == WakeCluster(info.filters, m, c) && Holds(resources, m, {}))
                && (err ==> PartlyWoken(info.filters, m, c, server.objects))
    {
      ghost var targets := Targets(GetPatches(info));
      if operation.SleepOperation? {
        err := resources.Sleep();
        PartlySleptFits(info.filters, targets, m, c, server.objects);
      } else {
        err := resources.WakeUp();
        PartlyWokenFits(info.filters, targets, m, c, server.objects);
      }
    }

    /** The mapping after an operation. */
    ghost function MappingAfter(operation: Operation, m: Mapping, c: Cluster): Mapping
      requires WellFormed(c)
    {
      if operation.SleepOperation? then SleepMapping(info.filters, m, c) else m
    }

    /** A Sleep that did not fail, and the Secret written after it, are what the step prescribes. */
    lemma SleptAsPrescribed(c: Cluster, data: SleepInfoData, m: Mapping, now: int)
      requires ValidInfo(info) && WellFormed(c) && m == MappingOf(info, c, data) && m != map[]
      requires data.operation.SleepOperation? && !SleepFails(info.filters, m, c)
      ensures var after := SleepMapping(info.filters, m, c);
              && after != map[] && AllDotFree(after)
              && Operate(info, c, data, now) ==
                   Some((SleepCluster(info.filters, m, c), UpsertedSecret(now, SleepOperation, true, SaveInfo(after))))
    {
      var after := SleepMapping(info.filters, m, c);
      MappingIsDotFree(info, c, data);
      assert after.Keys == m.Keys;
      assert after != map[];
    }

    /** A WakeUp that did not fail, and the Secret written after it, likewise. */
    lemma WokenAsPrescribed(c: Cluster, data: SleepInfoData, m: Mapping, now: int)
      requires ValidInfo(info) && WellFormed(c) && m == MappingOf(info, c, data) && m != map[]
      requires data.operation.WakeUpOperation? && !WakeFails(info.filters, m, c)
      ensures AllDotFree(m)
      ensures Operate(info, c, data, now) ==
                Some((WakeCluster(info.filters, m, c), UpsertedSecret(now, WakeUpOperation, true, SaveInfo(m))))
    {
      MappingIsDotFree(info, c, data);
    }

    /** Sleep or WakeUp, then the Secret; an operation that fails leaves the Secret alone. */
    method Perform(now: int, data: SleepInfoData, resources: ManagedResourceSet, ghost m: Mapping, ghost c: Cluster)
      returns (err: bool)
      requires Valid() && c == server.objects && m == MappingOf(info, c, data) && m != map[]
      requires Holds(resources, m, resources.resMapping.Keys)
      modifies this`secret, server, resources.resMapping.Values
      ensures Valid()
      ensures err <==> Operate(info, c, data, now).None?
      ensures !err ==> MappingAfter(data.operation, m, c) != map[] && Holds(resources, MappingAfter(data.operation, m, c), {})
      ensures !err ==> secret.Some? && Operate(info, c, data, now) == Some((server.objects, secret.value))
      ensures err ==> secret == old(secret) && Partly(data, c, server.objects)
    {
      err := Run(data.operation, resources, m, c);
      if err {
        return;
      }
      if data.operation.SleepOperation? {
        SleptAsPrescribed(c, data, m, now);
      } else {
        WokenAsPrescribed(c, data, m, now);
      }
      UpsertSecret(now, data.operation, resources, MappingAfter(data.operation, m, c));
    }

    // ---------------------------------------------------------------- reconciles

    /** The scheduled reconcile when there is nothing to operate on. */
    method RecordNothing(now: int, data: SleepInfoData, gate: Gate, resources: ManagedResourceSet) returns (requeueAfter: int)
      requires Holds(resources, map[], {}) && ValidSchedule(data.current)
      modifies this`secret
      ensures secret == Some(UpsertedSecret(now, data.operation, false, map[]))
      ensures requeueAfter == if data.operation.SleepOperation? then SkipWakeUpIfSleepNotPerformed(data.current, gate.next, now)
                              else gate.requeueAfter
    {
      UpsertSecret(now, data.operation, resources, map[]);
      requeueAfter := gate.requeueAfter;
      if data.operation.SleepOperation? {
        requeueAfter := SkipWakeUpIfSleepNotPerformed(data.current, gate.next, now);
      }
    }

    /** Finds the resources and writes the status. */
    method Announce(now: int, data: SleepInfoData, ghost m: Mapping) returns (resources: ManagedResourceSet, has: bool)
      requires Valid() && m == MappingOf(info, server.objects, data)
      modifies this`status
      ensures fresh(resources) && fresh(resources.resMapping.Values)
      ensures Holds(resources, m, resources.resMapping.Keys) && Holds(resources, m, {})
      ensures (has <==> m != map[]) && status == StatusAfter(now, data.operation, m)
    {
      resources, has := Find(data, m);
      HandleSleepInfoStatus(now, data.operation, resources, m, resources.resMapping.Keys);
    }

    /** The scheduled reconcile, once the gate is open: the status first, then the operation. */
    method Execute(now: int, data: SleepInfoData, gate: Gate, ghost c: Cluster, ghost m: Mapping)
      returns (err: bool, requeueAfter: int)
      requires Valid() && ValidSchedule(data.current) && c == server.objects && m == MappingOf(info, c, data)
      modifies this`secret, this`status, server
      ensures Valid() && status == StatusAfter(now, data.operation, m)
      ensures m == map[] ==>
                && !err && server.objects == c && secret == Some(UpsertedSecret(now, data.operation, false, map[]))
                && requeueAfter == if data.operation.SleepOperation? then SkipWakeUpIfSleepNotPerformed(data.current, gate.next, now)
                                   else gate.requeueAfter
      ensures m != map[] ==>
                && (err <==> Operate(info, c, data, now).None?)
                && (!err ==> secret.Some? && Operate(info, c, data, now) == Some((server.objects, secret.value))
                             && requeueAfter == gate.requeueAfter)
                && (err ==> secret == old(secret) && Partly(data, c, server.objects))
    {
      var resources, has := Announce(now, data, m);
      err, requeueAfter := false, gate.requeueAfter;
      if !has {
        requeueAfter := RecordNothing(now, data, gate, resources);
      } else {
        err := Perform(now, data, resources, m, c);
      }
    }

    /** The scheduled reconcile does what its step says; interrupted, it leaves the Secret
        and the executions alone and every object as it was or fully operated on. */
    method Reconcile(now: int) returns (err: bool, requeueAfter: int)
      requires Valid()
      modifies this`secret, this`status, server
      ensures Valid()
      ensures match ScheduledStep(info, sleepDelta, old(Current()), now)
              case Completed(s, _, after) => !err && Current() == s && requeueAfter == after
              case Rejected => err && Current() == old(Current())
              case Interrupted =>
                && err && secret == old(secret)
                && var data := GetSleepInfoData(old(secret), info).value;
                   && status == StatusAfter(now, data.operation, MappingOf(info, old(server.objects), data))
                   && Partly(data, old(server.objects), server.objects)
    {
      var stored := GetSleepInfoData(secret, info);
      if stored.None? {
        return true, 0;
      }
      var data := stored.value;
      var gate := GetNextSchedule(sleepDelta, data.current, data.next, data.last, now);
      if !gate.execute {
        return false, gate.requeueAfter;
      }
      err, requeueAfter := Execute(now, data, gate, server.objects, MappingOf(info, server.objects, data));
    }

    /** The status writes after a forced operation. */
    method Conclude(name: string, now: int, faults: Faults, operation: Operation, resources: ManagedResourceSet, ghost m: Mapping)
      returns (err: bool)
      requires name in executions && Holds(resources, m, {})
      modifies this`status, this`executions
      ensures err == Unrecorded(faults)
      ensures var status := if faults.infoStatus then old(status) else StatusAfter(now, operation, m);
              Current() == WithPhase(old(Current()).(status := status), name, now, Unrecorded(faults), Succeeded, Executed)
    {
      if faults.infoStatus {
        return true;
      }
      HandleSleepInfoStatus(now, operation, resources, m, {});
      UpdateExecutionStatus(name, now, faults.executionStatus, Succeeded, Executed);
      return faults.executionStatus;
    }

    /** What a forced operation does to the state; `None` when it fails. */
    ghost function AfterOperation(s: State, name: string, now: int, faults: Faults, data: SleepInfoData): Option<State>
      requires ValidInfo(info) && WellFormed(s.cluster) && name in s.executions
    {
      match Operate(info, s.cluster, data, now)
      case None => None
      case Some((cluster, secret)) =>
        var status := if faults.infoStatus then s.status else StatusAfter(now, data.operation, MappingOf(info, s.cluster, data));
        Some(WithPhase(s.(cluster := cluster, secret := Some(secret), status := status), name, now, Unrecorded(faults), Succeeded, Executed))
    }

    /** The forced reconcile on the resources it found. */
    method ForceOn(name: string, now: int, faults: Faults, data: SleepInfoData, resources: ManagedResourceSet,
                   ghost m: Mapping, ghost s: State)
      returns (err: bool)
      requires Valid() && s == Current() && name in executions && m == MappingOf(info, s.cluster, data) && m != map[]
      requires Holds(resources, m, resources.resMapping.Keys)
      modifies this, server, resources.resMapping.Values
      ensures Valid()
      ensures var out := AfterOperation(s, name, now, faults, data);
              if out.Some? then err == Unrecorded(faults) && Current() == out.value
              else err && Current() == s.(cluster := server.objects) && Partly(data, s.cluster, server.objects)
    {
      err := Perform(now, data, resources, m, s.cluster);
      assert Current() == s.(cluster := server.objects, secret := secret);
      if !err {
        err := Conclude(name, now, faults, data.operation, resources, MappingAfter(data.operation, m, s.cluster));
      }
    }

    /** The forced reconcile, once its guards let it through. */
    method Force(name: string, now: int, faults: Faults, data: SleepInfoData, ghost s: State) returns (err: bool)
      requires Valid() && s == Current() && name in executions
      modifies this, server
      ensures Valid()
      ensures var out := AfterOperation(s, name, now, faults, data);
              if MappingOf(info, s.cluster, data) == map[] then
                err == faults.executionStatus && Current() == WithPhase(s, name, now, faults.executionStatus, Skipped, NoResources)
              else if out.Some? then err == Unrecorded(faults) && Current() == out.value
              else err && Current() == s.(cluster := server.objects) && Partly(data, s.cluster, server.objects)
    {
      ghost var m := MappingOf(info, s.cluster, data);
      var resources, has := Find(data, m);
      if !has {
        UpdateExecutionStatus(name, now, faults.executionStatus, Skipped, NoResources);
        return faults.executionStatus;
      }
      err := ForceOn(name, now, faults, data, resources, m, s);
    }

    /** What the guards of a forced reconcile let through. */
    ghost predicate Admitted(s: State, name: string, data: SleepInfoData)
    {
      && name in s.executions && !IsProcessed(s.executions[name]) && s.executions[name].sleepInfoName == info.name
      && (s.executions[name].operation.SleepOperation? <==> !IsAsleep(s.secret))
      && GetSleepInfoData(s.secret, info).Some?
      && ApplyExecutionOverride(GetSleepInfoData(s.secret, info).value, s.executions[name].operation, info) == Some(data)
    }

    /** The step of a forced reconcile whose guards let it through. */
    lemma AdmittedStep(s: State, name: string, now: int, faults: Faults, data: SleepInfoData)
      requires ValidInfo(info) && WellFormed(s.cluster) && Admitted(s, name, data)
      ensures var out := AfterOperation(s, name, now, faults, data);
              ForcedStep(info, s, name, now, faults) ==
              if MappingOf(info, s.cluster, data) == map[] then
                Completed(WithPhase(s, name, now, faults.executionStatus, Skipped, NoResources), DidNothing, 0)
              else if out.None? then Interrupted
              else Completed(out.value, ActionOf(data.operation), 0)
    {
    }

    /** The guards of a forced reconcile: the data to operate with, or the end of it. */
    method Guard(name: string, now: int, faults: Faults) returns (err: bool, forced: Option<SleepInfoData>)
      requires Valid() && name in executions && !IsProcessed(executions[name])
      modifies this`executions
      ensures Valid()
      ensures forced.Some? ==> Current() == old(Current()) && Admitted(old(Current()), name, forced.value)
      ensures forced.None? ==>
                match ForcedStep(info, old(Current()), name, now, faults)
                case Completed(s, _, _) => Current() == s && err == faults.executionStatus
                case Rejected => err && Current() == old(Current())
                case Interrupted => false
    {
      var e := executions[name];
      err, forced := faults.executionStatus, None;
      if e.sleepInfoName != info.name {
        UpdateExecutionStatus(name, now, faults.executionStatus, Failed, SleepInfoNotFound);
      } else if e.operation.WakeUpOperation? && !IsAsleep(secret) {
        UpdateExecutionStatus(name, now, faults.executionStatus, Skipped, NotAsleep);
      } else if e.operation.SleepOperation? && IsAsleep(secret) {
        UpdateExecutionStatus(name, now, faults.executionStatus, Skipped, AlreadyAsleep);
      } else {
        var stored := GetSleepInfoData(secret, info);
        if stored.None? {
          err := true;
        } else {
          forced := ApplyExecutionOverride(stored.value, e.operation, info);
          if forced.None? {
            UpdateExecutionStatus(name, now, faults.executionStatus, Failed, NoWakeUpAt);
          }
        }
      }
    }

    /** The forced reconcile does what its step says; interrupted, it leaves the Secret, the
        executions and the status alone. */
    method ReconcileExecution(name: string, now: int, faults: Faults) returns (err: bool)
      requires Valid()
      modifies this, server
      ensures Valid()
      ensures match ForcedStep(info, old(Current()), name, now, faults)
              case Completed(s, _, _) => Current() == s && (err ==> Unrecorded(faults))
              case Rejected => err && Current() == old(Current())
              case Interrupted =>
                && err && Current() == old(Current()).(cluster := server.objects)
                && Partly(ApplyExecutionOverride(GetSleepInfoData(old(secret), info).value, old(executions)[name].operation, info).value,
                          old(server.objects), server.objects)
    {
      if name !in executions || IsProcessed(executions[name]) {
        return false;
      }
      var forced;
      err, forced := Guard(name, now, faults);
      if forced.Some? {
        AdmittedStep(Current(), name, now, faults, forced.value);
        err := Force(name, now, faults, forced.value, Current());
      }
    }
  }
}
