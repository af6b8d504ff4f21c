/** The SleepInfo, the Secret that records what was done, and the data the controllers
    derive from the two. */
module SleepInfos {
  import opened JsonDocs
  import opened Patcher
  import opened ApiObjects
  import opened MergePaths
  import opened Selector
  import opened SleepDocs
  import opened PlainPatches
  import opened Resources
  import opened Schedule

  datatype Operation = SleepOperation | WakeUpOperation

  datatype SleepInfo = SleepInfo(
    name: string,
    suspendDeployments: Option<bool>,
    suspendStatefulSets: Option<bool>,
    suspendCronJobs: bool,
    patches: seq<Patch>,
    filters: Filters,
    sleepAt: Schedule,
    wakeUpAt: Option<Schedule>)

  const DEPLOYMENT: PatchTarget := PatchTarget("apps", "Deployment")
  const STATEFUL_SET: PatchTarget := PatchTarget("apps", "StatefulSet")
  const CRON_JOB: PatchTarget := PatchTarget("batch", "CronJob")

  predicate IsOn(setting: Option<bool>) { setting.None? || setting.value }

  /** The default patches that are switched on, then the configured ones. */
  function GetPatches(info: SleepInfo): seq<Patch>
  {
    (if IsOn(info.suspendDeployments) then [Patch(DEPLOYMENT, Ops(SCALE_TO_ZERO))] else [])
    + (if IsOn(info.suspendStatefulSets) then [Patch(STATEFUL_SET, Ops(SCALE_TO_ZERO))] else [])
    + (if info.suspendCronJobs then [Patch(CRON_JOB, Ops(SUSPEND_JOBS))] else [])
    + info.patches
  }

  lemma PatchForOne(patch: Patch, t: PatchTarget)
    ensures PatchFor([patch], t) == if patch.target == t then Some(patch.text) else None
    ensures PatchFor([], t) == None
  {
    assert [patch][..0] == [];
  }

  /** The patch in force for a target: the configured one if there is any; else zero replicas
      for Deployments and for StatefulSets unless its own switch is off, and suspension for
      CronJobs if its switch is on; else none. */
  lemma PatchInForce(info: SleepInfo, t: PatchTarget)
    ensures PatchFor(GetPatches(info), t) ==
            if PatchFor(info.patches, t).Some? then PatchFor(info.patches, t)
            else if t == PatchTarget("apps", "Deployment") && info.suspendDeployments != Some(false) then
              Some(Ops([Add(["spec", "replicas"], Num(0.0))]))
            else if t == PatchTarget("apps", "StatefulSet") && info.suspendStatefulSets != Some(false) then
              Some(Ops([Add(["spec", "replicas"], Num(0.0))]))
            else if t == PatchTarget("batch", "CronJob") && info.suspendCronJobs then
              Some(Ops([Add(["spec", "suspend"], Bool(true))]))
            else None
  {
    var a := if IsOn(info.suspendDeployments) then [Patch(DEPLOYMENT, Ops(SCALE_TO_ZERO))] else [];
    var b := if IsOn(info.suspendStatefulSets) then [Patch(STATEFUL_SET, Ops(SCALE_TO_ZERO))] else [];
    var c := if info.suspendCronJobs then [Patch(CRON_JOB, Ops(SUSPEND_JOBS))] else [];
    PatchForAppend(a + b + c, info.patches, t);
    PatchForAppend(a + b, c, t);
    PatchForAppend(a, b, t);
    PatchForOne(Patch(DEPLOYMENT, Ops(SCALE_TO_ZERO)), t);
    PatchForOne(Patch(STATEFUL_SET, Ops(SCALE_TO_ZERO)), t);
    PatchForOne(Patch(CRON_JOB, Ops(SUSPEND_JOBS)), t);
    assert "CronJob"[0] == 'C' && "Deployment"[0] == 'D' && "StatefulSet"[0] == 'S';
  }

  /** Schedules that parse, and kinds that are Kubernetes kinds. */
  ghost predicate ValidInfo(info: SleepInfo)
  {
    && ValidSchedule(info.sleepAt)
    && (info.wakeUpAt.Some? ==> ValidSchedule(info.wakeUpAt.value))
    && (forall t | t in Targets(GetPatches(info)) :: DotFree(t.kind))
  }

  // ---------------------------------------------------------------- the Secret

  datatype OriginalReplicas = OriginalReplicas(name: string, replicas: int)
  datatype OriginalCronJob = OriginalCronJob(name: string, suspend: bool)

  /** The keys of the Secret; `scheduledAt` is absent when it does not parse, and the last
      two are the keys older versions wrote. */
  datatype Secret =
    | NoData
    | Secret(scheduledAt: Option<int>,
             operation: Option<Operation>,
             original: Option<map<string, RestorePatches>>,
             replicas: Option<seq<OriginalReplicas>>,
             cronJobs: Option<seq<OriginalCronJob>>)

  predicate IsAsleep(secret: Option<Secret>)
  {
    secret.Some? && secret.value.Secret? && secret.value.operation == Some(SleepOperation)
  }

  /** What is written after an operation: everything an operation does not write, its
      update erases. */
  function UpsertedSecret(now: int, operation: Operation, hasResource: bool, saved: map<string, RestorePatches>): Secret
  {
    Secret(Some(TruncateToSecond(now)),
           if hasResource then Some(operation) else None,
           if hasResource && operation.SleepOperation? then Some(saved) else None,
           None, None)
  }

  lemma DistinctStrings(m: Mapping)
    requires AllDotFree(m)
    ensures forall a, b | a in m && b in m && TargetString(a) == TargetString(b) :: a == b
  {
    forall a, b | a in m && b in m && TargetString(a) == TargetString(b) ensures a == b {
      TargetStringInjective(a, b);
    }
  }

  function SaveInfo(m: Mapping): (saved: map<string, RestorePatches>)
    requires AllDotFree(m)
    ensures IsSaveOf(saved, m)
  {
    DistinctStrings(m);
    map t | t in m && m[t].restore != map[] :: TargetString(t) := m[t].restore
  }

  // ---------------------------------------------------------------- older Secrets

  function ReplicasPatch(n: int): Object { map["spec" := Obj(map["replicas" := Num(n as real)])] }

  function SuspendPatch(b: bool): Object { map["spec" := Obj(map["suspend" := Bool(b)])] }

  function LegacyReplicas(entries: seq<OriginalReplicas>): (data: RestorePatches)
    ensures "" !in data
  {
    if entries == [] then map[]
    else
      var rest := LegacyReplicas(entries[..|entries| - 1]);
      var last := entries[|entries| - 1];
      if last.name != "" then rest[last.name := ReplicasPatch(last.replicas)] else rest
  }

  function LegacyCronJobs(entries: seq<OriginalCronJob>): (data: RestorePatches)
    ensures "" !in data
  {
    if entries == [] then map[]
    else
      var rest := LegacyCronJobs(entries[..|entries| - 1]);
      var last := entries[|entries| - 1];
      if last.name != "" then rest[last.name := SuspendPatch(last.suspend)] else rest
  }

  method GetOriginalReplicas(entries: seq<OriginalReplicas>) returns (data: RestorePatches)
    ensures data == LegacyReplicas(entries)
  {
    data := map[];
    for i := 0 to |entries|
      invariant data == LegacyReplicas(entries[..i])
    {
      assert entries[..i + 1][..i] == entries[..i];
      if entries[i].name != "" {
        data := data[entries[i].name := ReplicasPatch(entries[i].replicas)];
      }
    }
    assert entries[..|entries|] == entries;
  }

  method GetOriginalCronJobs(entries: seq<OriginalCronJob>) returns (data: RestorePatches)
    ensures data == LegacyCronJobs(entries)
  {
    data := map[];
    for i := 0 to |entries|
      invariant data == LegacyCronJobs(entries[..i])
    {
      assert entries[..i + 1][..i] == entries[..i];
      if entries[i].name != "" {
        data := data[entries[i].name := SuspendPatch(entries[i].suspend)];
      }
    }
    assert entries[..|entries|] == entries;
  }

  /** With `i` the last entry of a name, or -1 without one: the name is restored exactly when
      there is such an entry and the name is not empty, to the value of that entry. */
  lemma {:induction false} LegacyReplicasIsLast(entries: seq<OriginalReplicas>, name: string, i: int)
    requires -1 <= i < |entries| && (i >= 0 ==> entries[i].name == name)
    requires forall j | i < j < |entries| :: entries[j].name != name
    ensures name in LegacyReplicas(entries) <==> i >= 0 && name != ""
    ensures name in LegacyReplicas(entries) ==> LegacyReplicas(entries)[name] == ReplicasPatch(entries[i].replicas)
  {
    if i < |entries| - 1 {
      LegacyReplicasIsLast(entries[..|entries| - 1], name, i);
    }
  }

  lemma {:induction false} LegacyCronJobsIsLast(entries: seq<OriginalCronJob>, name: string, i: int)
    requires -1 <= i < |entries| && (i >= 0 ==> entries[i].name == name)
    requires forall j | i < j < |entries| :: entries[j].name != name
    ensures name in LegacyCronJobs(entries) <==> i >= 0 && name != ""
    ensures name in LegacyCronJobs(entries) ==> LegacyCronJobs(entries)[name] == SuspendPatch(entries[i].suspend)
  {
    if i < |entries| - 1 {
      LegacyCronJobsIsLast(entries[..|entries| - 1], name, i);
    }
  }

  /** The data of older keys takes the place of what is stored for their targets. */
  function ConvertOldSecret(original: map<string, RestorePatches>, replicas: Option<seq<OriginalReplicas>>,
                            cronJobs: Option<seq<OriginalCronJob>>): map<string, RestorePatches>
  {
    var withReplicas := if replicas.Some? then original[TargetString(DEPLOYMENT) := LegacyReplicas(replicas.value)] else original;
    if cronJobs.Some? then withReplicas[TargetString(CRON_JOB) := LegacyCronJobs(cronJobs.value)] else withReplicas
  }

  /** A patch of a single value at `spec.field`, merged or added, writes that value and
      nothing else. */
  lemma SpecFieldWrite(field: string, value: Json, doc: Json, p: Path)
    requires !value.Obj? && !value.Null?
    ensures var woken := Merge(doc, Obj(map["spec" := Obj(map[field := value])])); var q: Path := ["spec", field];
            && Lookup(woken, q) == Some(value)
            && (Disjoint(p, q) ==> Lookup(woken, p) == Lookup(doc, p))
  {
    var patch := Obj(map["spec" := Obj(map[field := value])]);
    var q: Path := ["spec", field];
    Lookup2(patch, "spec", field);
    Lookup1(patch.members["spec"], field);
    MergeWritesLeaf(doc, patch, q);
    if Disjoint(p, q) {
      assert p != [];
      assert p == [p[0]] + p[1..];
      if p[0] == "spec" {
        DisjointTails(p, q);
        assert p[1..] == [p[1]] + p[2..];
      }
      MergeKeepsMissed(doc, patch, p);
    }
  }

  /** A resource at the slept value wakes to the recorded one: exactly that field is set. */
  lemma LegacyWake(field: string, slept: Json, recorded: Json, doc: Json, p: Path)
    requires !slept.Obj? && !slept.Null? && !recorded.Obj? && !recorded.Null?
    requires doc.Obj? && Lookup(doc, ["spec", field]) == Some(slept)
    ensures var patch := map["spec" := Obj(map[field := recorded])];
            var woken := WakeDoc([Add(["spec", field], slept)], Some(patch), doc);
            && Lookup(woken, ["spec", field]) == Some(recorded)
            && (Disjoint(p, ["spec", field]) ==> Lookup(woken, p) == Lookup(doc, p))
  {
    var ops := [Add(["spec", field], slept)];
    var patch := map["spec" := Obj(map[field := recorded])];
    SpecPathIsFree(field, slept);
    ExecOfSettled(ops, doc);
    forall q: Path | ProtectedPath(q) ensures Lookup(Merge(doc, Obj(patch)), q) == Lookup(doc, q) {
      assert Disjoint(ops[0].path, q);
      SpecFieldWrite(field, recorded, doc, q);
    }
    assert ProtectedPath(API_VERSION) && ProtectedPath(KIND) && ProtectedPath(NAME) && ProtectedPath(NAMESPACE);
    WakeMerges(ops, patch, doc);
    SpecFieldWrite(field, recorded, doc, p);
  }

  // ---------------------------------------------------------------- derived data

  datatype SleepInfoData = SleepInfoData(
    last: int,
    operation: Operation,
    current: Schedule,
    next: Schedule,
    original: map<string, RestorePatches>)

  /** The default: sleep next, then wake up if there is a wake-up, else sleep again. */
  function SleepNext(info: SleepInfo, last: int, original: map<string, RestorePatches>): SleepInfoData
  {
    SleepInfoData(last, SleepOperation, info.sleepAt, if info.wakeUpAt.Some? then info.wakeUpAt.value else info.sleepAt, original)
  }

  /** What to do next according to the Secret; `None` when its timestamp does not parse. */
  function GetSleepInfoData(secret: Option<Secret>, info: SleepInfo): Option<SleepInfoData>
  {
    if secret.None? || secret.value.NoData? then Some(SleepNext(info, ZERO_TIME, map[]))
    else
      var stored := secret.value;
      var original := ConvertOldSecret(if stored.original.Some? then stored.original.value else map[], stored.replicas, stored.cronJobs);
      if stored.scheduledAt.None? then None
      else if stored.operation == Some(SleepOperation) && info.wakeUpAt.Some? then
        Some(SleepInfoData(stored.scheduledAt.value, WakeUpOperation, info.wakeUpAt.value, info.sleepAt, original))
      else Some(SleepNext(info, stored.scheduledAt.value, original))
  }

  /** Only a Secret with data and without a readable timestamp cannot be read. */
  lemma UnreadableIff(secret: Option<Secret>, info: SleepInfo)
    ensures GetSleepInfoData(secret, info).None? <==> secret.Some? && secret.value.Secret? && secret.value.scheduledAt.None?
  {
  }

  /** The same data with the operation of an execution; `None` for a wake-up of a SleepInfo
      that has none. */
  function ApplyExecutionOverride(data: SleepInfoData, operation: Operation, info: SleepInfo): Option<SleepInfoData>
  {
    match operation
    case SleepOperation => Some(SleepNext(info, data.last, data.original))
    case WakeUpOperation =>
      if info.wakeUpAt.None? then None
      else Some(SleepInfoData(data.last, WakeUpOperation, info.wakeUpAt.value, info.sleepAt, data.original))
  }
}
