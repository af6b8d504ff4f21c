/** Secrets of older versions, which kept replicas and suspend flags instead of restore
    patches: what a wake-up makes of them. */
module LegacySecrets {
  import opened JsonDocs
  import opened Patcher
  import opened ApiObjects
  import opened Selector
  import opened SleepDocs
  import opened PlainPatches
  import opened Resources
  import opened SleepInfos
  import opened Controllers

  /** A readable Secret that says the namespace is asleep. */
  predicate SaysAsleep(secret: Secret)
  {
    secret.Secret? && secret.scheduledAt.Some? && secret.operation == Some(SleepOperation)
  }

  /** The restore patches that are loaded for the two kinds with older entries. */
  lemma LegacyLoad(info: SleepInfo, secret: Secret)
    requires SaysAsleep(secret)
    ensures GetSleepInfoData(Some(secret), info).Some?
    ensures var data := GetSleepInfoData(Some(secret), info).value;
            && (info.wakeUpAt.Some? ==> data.operation.WakeUpOperation?)
            && (secret.replicas.Some? ==> LoadFor(data.original, DEPLOYMENT) == LegacyReplicas(secret.replicas.value))
            && (secret.cronJobs.Some? ==> LoadFor(data.original, CRON_JOB) == LegacyCronJobs(secret.cronJobs.value))
  {
    assert TargetString(DEPLOYMENT)[0] == 'D' && TargetString(CRON_JOB)[0] == 'C';
  }

  /** A target without older entries loads what is stored under its own key, whatever older
      entries there are for others. */
  lemma OthersLoadTheirOwn(info: SleepInfo, secret: Secret, t: PatchTarget)
    requires SaysAsleep(secret) && DotFree(t.kind)
    requires (t == DEPLOYMENT ==> secret.replicas.None?) && (t == CRON_JOB ==> secret.cronJobs.None?)
    ensures GetSleepInfoData(Some(secret), info).Some?
    ensures LoadFor(GetSleepInfoData(Some(secret), info).value.original, t)
         == if secret.original.Some? then LoadFor(secret.original.value, t) else map[]
  {
    if TargetString(t) == TargetString(DEPLOYMENT) { TargetStringInjective(t, DEPLOYMENT); }
    if TargetString(t) == TargetString(CRON_JOB) { TargetStringInjective(t, CRON_JOB); }
  }

  /** A managed object of a target whose patch is in force wakes by its loaded restore patch. */
  lemma WokenByLoaded(info: SleepInfo, c: Cluster, data: SleepInfoData, k: Key, ops: seq<Op>)
    requires WellFormed(c) && k in c && Managed(info.filters, k.target, c, k)
    requires PatchFor(GetPatches(info), k.target) == Some(Ops(ops))
    ensures WakeCluster(info.filters, MappingOf(info, c, data), c)[k]
         == WakeDoc(ops, SavedFor(LoadFor(data.original, k.target), k.name), c[k])
  {
    PatchForIsLast(GetPatches(info), k.target);
    assert k in ManagedKeys(info.filters, k.target, c);
  }

  /** What the wake-up of an object amounts to, given the value recorded for the patched
      field, if any: nothing without one or when the field is not at the slept value, and else
      the field gets the recorded value and every other path keeps its own. */
  ghost predicate WakesTo(doc: Json, woken: Json, field: string, slept: Json, recorded: Option<Json>)
  {
    var q: Path := ["spec", field];
    if recorded.None? || Lookup(doc, q) != Some(slept) then woken == doc
    else Lookup(woken, q) == recorded && forall p: Path | Disjoint(p, q) :: Lookup(woken, p) == Lookup(doc, p)
  }

  lemma LegacyObject(field: string, slept: Json, recorded: Option<Json>, doc: Json)
    requires doc.Obj? && !slept.Obj? && !slept.Null? && (recorded.Some? ==> !recorded.value.Obj? && !recorded.value.Null?)
    ensures var ops := [Add(["spec", field], slept)];
            var saved := if recorded.Some? then Some(map["spec" := Obj(map[field := recorded.value])]) else None;
            WakesTo(doc, WakeDoc(ops, saved, doc), field, slept, recorded)
  {
    var ops := [Add(["spec", field], slept)];
    if recorded.Some? {
      if Lookup(doc, ["spec", field]) == Some(slept) {
        forall p: Path | Disjoint(p, ["spec", field])
          ensures Lookup(WakeDoc(ops, Some(map["spec" := Obj(map[field := recorded.value])]), doc), p) == Lookup(doc, p)
        {
          LegacyWake(field, slept, recorded.value, doc, p);
        }
        LegacyWake(field, slept, recorded.value, doc, ["kind"]);
      } else {
        FixpointIffSettled(ops, doc);
        assert !Settled(ops[0], doc);
      }
    }
  }

  /** Waking with the older entries of Deployments. With `i` the last entry of the object's
      name, or -1 without one: an object at zero replicas gets the replicas of that entry and
      nothing else changes; any other object stays as it is. */
  lemma LegacyDeploymentWakes(info: SleepInfo, c: Cluster, secret: Secret, entries: seq<OriginalReplicas>, k: Key, i: int)
    requires ValidInfo(info) && WellFormed(c) && SaysAsleep(secret) && secret.replicas == Some(entries)
    requires PatchFor(GetPatches(info), DEPLOYMENT) == Some(Ops(SCALE_TO_ZERO))
    requires k in c && k.target == DEPLOYMENT && Selected(info.filters, DEPLOYMENT, c[k])
    requires -1 <= i < |entries| && (i >= 0 ==> entries[i].name == k.name)
    requires forall j | i < j < |entries| :: entries[j].name != k.name
    ensures GetSleepInfoData(Some(secret), info).Some?
    ensures var data := GetSleepInfoData(Some(secret), info).value;
            && (info.wakeUpAt.Some? ==> data.operation.WakeUpOperation?)
            && WakesTo(c[k], WakeCluster(info.filters, MappingOf(info, c, data), c)[k], "replicas", Num(0.0),
                       if i >= 0 then Some(Num(entries[i].replicas as real)) else None)
  {
    LegacyLoad(info, secret);
    WokenByLoaded(info, c, GetSleepInfoData(Some(secret), info).value, k, SCALE_TO_ZERO);
    LegacyReplicasIsLast(entries, k.name, i);
    LegacyObject("replicas", Num(0.0), if i >= 0 then Some(Num(entries[i].replicas as real)) else None, c[k]);
  }

  /** The same for CronJobs and their suspend flag. */
  lemma LegacyCronJobWakes(info: SleepInfo, c: Cluster, secret: Secret, entries: seq<OriginalCronJob>, k: Key, i: int)
    requires ValidInfo(info) && WellFormed(c) && SaysAsleep(secret) && secret.cronJobs == Some(entries)
    requires PatchFor(GetPatches(info), CRON_JOB) == Some(Ops(SUSPEND_JOBS))
    requires k in c && k.target == CRON_JOB && Selected(info.filters, CRON_JOB, c[k])
    requires -1 <= i < |entries| && (i >= 0 ==> entries[i].name == k.name)
    requires forall j | i < j < |entries| :: entries[j].name != k.name
    ensures GetSleepInfoData(Some(secret), info).Some?
    ensures var data := GetSleepInfoData(Some(secret), info).value;
            && (info.wakeUpAt.Some? ==> data.operation.WakeUpOperation?)
            && WakesTo(c[k], WakeCluster(info.filters, MappingOf(info, c, data), c)[k], "suspend", Bool(true),
                       if i >= 0 then Some(Bool(entries[i].suspend)) else None)
  {
    LegacyLoad(info, secret);
    WokenByLoaded(info, c, GetSleepInfoData(Some(secret), info).value, k, SUSPEND_JOBS);
    LegacyCronJobsIsLast(entries, k.name, i);
    LegacyObject("suspend", Bool(true), if i >= 0 then Some(Bool(entries[i].suspend)) else None, c[k]);
  }
}
