/** The restore theorem: over every interleaving of both controllers, the cluster is either
    the original one, or the patched one together with what is needed to get back. */
module RestoreRuns {
  import opened JsonDocs
  import opened Patcher
  import opened ApiObjects
  import opened Selector
  import opened SleepDocs
  import opened PlainPatches
  import opened Resources
  import opened Schedule
  import opened SleepInfos
  import opened Controllers

  /** The patch of a target can be undone on its managed objects. */
  ghost predicate SuitableTarget(info: SleepInfo, t: PatchTarget, text: PatchText, c: Cluster)
    requires WellFormed(c)
  {
    text.Ops? && KeepsMetadata(text.ops) && forall k | k in ManagedKeys(info.filters, t, c) :: Restorable(text.ops, c[k])
  }

  /** Every patch parses, keeps metadata and is restorable on the objects it manages. */
  ghost predicate Suitable(info: SleepInfo, c: Cluster)
    requires WellFormed(c)
  {
    forall t | t in Targets(GetPatches(info)) ::
      PatchFor(GetPatches(info), t).Some? && SuitableTarget(info, t, PatchFor(GetPatches(info), t).value, c)
  }

  // ---------------------------------------------------------------- the two states

  /** The mapping of a first sleep: nothing saved yet. */
  ghost function BaseMapping(info: SleepInfo, c: Cluster): Mapping {
    NewMapping(GetPatches(info), info.filters, c, map[])
  }

  ghost function AsleepCluster(info: SleepInfo, c: Cluster): (a: Cluster)
    requires WellFormed(c)
    ensures WellFormed(a)
  {
    SleepClusterWellFormed(info.filters, BaseMapping(info, c), c);
    SleepCluster(info.filters, BaseMapping(info, c), c)
  }

  /** The mapping after that sleep: every change with its restore patch. */
  ghost function AsleepMapping(info: SleepInfo, c: Cluster): Mapping
    requires WellFormed(c)
  {
    SleepMapping(info.filters, BaseMapping(info, c), c)
  }

  /** A Secret this version wrote. */
  ghost predicate OwnSecret(secret: Secret) {
    secret.Secret? && secret.scheduledAt.Some? && secret.replicas.None? && secret.cronJobs.None?
  }

  ghost predicate Inv(info: SleepInfo, c0: Cluster, s: State)
    requires ValidInfo(info) && WellFormed(c0)
  {
    && (s.secret.Some? ==> OwnSecret(s.secret.value))
    && if IsAsleep(s.secret) then
         && BaseMapping(info, c0) != map[]
         && s.cluster == AsleepCluster(info, c0)
         && AllDotFree(AsleepMapping(info, c0))
         && s.secret.value.original == Some(SaveInfo(AsleepMapping(info, c0)))
       else
         && s.cluster == c0
         && (s.secret.Some? ==> s.secret.value.original.None?)
  }

  // ---------------------------------------------------------------- one object

  lemma SelectionReadsNameAndLabels(f: Filters, t: PatchTarget, a: Json, b: Json)
    requires Name(a) == Name(b) && Lookup(a, LABELS) == Lookup(b, LABELS)
    ensures Selected(f, t, a) == Selected(f, t, b)
  {
    forall k, v ensures HasLabel(a, k, v) == HasLabel(b, k, v) {}
  }

  /** A managed object of the first sleep: what it becomes, and that it stays managed. */
  lemma AsleepObject(info: SleepInfo, c: Cluster, k: Key)
    requires WellFormed(c) && Suitable(info, c) && k in c
    requires k.target in BaseMapping(info, c) && Managed(info.filters, k.target, c, k)
    ensures var ops := OpsOf(BaseMapping(info, c)[k.target].text); var slept := AsleepCluster(info, c)[k];
            && slept == SleepDoc(ops, c[k]) && slept.Obj?
            && !SleepEffectOn(ops, c[k]).Fail?
            && SleepEffectOn(ops, slept) == Skip
            && WakeEffectOn(ops, RestoreOf(ops, c[k]), slept) != Refuse
            && WakeDoc(ops, RestoreOf(ops, c[k]), slept) == c[k]
            && Selected(info.filters, k.target, slept)
            && (RestoreOf(ops, c[k]).Some? ==> Merge(slept, Obj(RestoreOf(ops, c[k]).value)) == c[k])
  {
    var text := BaseMapping(info, c)[k.target].text;
    assert SuitableTarget(info, k.target, text, c);
    assert k in ManagedKeys(info.filters, k.target, c);
    SleepGivesPatched(text.ops, c[k]);
    WakeUndoesSleep(text.ops, c[k]);
    SelectionReadsNameAndLabels(info.filters, k.target, c[k], SleepDoc(text.ops, c[k]));
  }

  lemma UnmanagedObject(info: SleepInfo, c: Cluster, k: Key)
    requires WellFormed(c) && k in c
    requires !(k.target in BaseMapping(info, c) && Managed(info.filters, k.target, c, k))
    ensures AsleepCluster(info, c)[k] == c[k]
  {
  }

  lemma AsleepManagedSame(info: SleepInfo, c: Cluster, t: PatchTarget)
    requires WellFormed(c) && Suitable(info, c)
    ensures ManagedKeys(info.filters, t, AsleepCluster(info, c)) == ManagedKeys(info.filters, t, c)
  {
    var a := AsleepCluster(info, c);
    forall k | k in c ensures Managed(info.filters, t, a, k) == Managed(info.filters, t, c, k) {
      if k.target in BaseMapping(info, c) && Managed(info.filters, k.target, c, k) {
        AsleepObject(info, c, k);
      } else {
        UnmanagedObject(info, c, k);
      }
    }
  }

  // ---------------------------------------------------------------- reloading while asleep

  lemma AsleepDotFree(info: SleepInfo, c: Cluster)
    requires ValidInfo(info) && WellFormed(c)
    ensures AllDotFree(BaseMapping(info, c)) && AllDotFree(AsleepMapping(info, c))
  {
  }

  lemma ReloadedTargets(patches: seq<Patch>, f: Filters, c: Cluster, c': Cluster, saved: map<string, RestorePatches>)
    requires forall t :: ManagedKeys(f, t, c') == ManagedKeys(f, t, c)
    ensures var base, m := NewMapping(patches, f, c, map[]), NewMapping(patches, f, c', saved);
            m.Keys == base.Keys && forall t | t in m :: m[t] == Entry(base[t].text, LoadFor(saved, t))
  {
  }

  /** Reloaded from the Secret over a cluster with the same managed objects, the mapping is
      the one that was saved. */
  lemma ReloadedOver(info: SleepInfo, c: Cluster, c': Cluster)
    requires ValidInfo(info) && WellFormed(c) && AllDotFree(AsleepMapping(info, c))
    requires forall t :: ManagedKeys(info.filters, t, c') == ManagedKeys(info.filters, t, c)
    ensures NewMapping(GetPatches(info), info.filters, c', SaveInfo(AsleepMapping(info, c))) == AsleepMapping(info, c)
  {
    var expected := AsleepMapping(info, c);
    var saved := SaveInfo(expected);
    ReloadedTargets(GetPatches(info), info.filters, c, c', saved);
    var m := NewMapping(GetPatches(info), info.filters, c', saved);
    forall t | t in expected ensures expected[t] == m[t] {
      SaveThenLoad(saved, expected, t);
    }
    SameMappings(m, expected);
  }

  lemma ReloadedMapping(info: SleepInfo, c: Cluster)
    requires ValidInfo(info) && WellFormed(c) && Suitable(info, c) && AllDotFree(AsleepMapping(info, c))
    ensures NewMapping(GetPatches(info), info.filters, AsleepCluster(info, c), SaveInfo(AsleepMapping(info, c)))
         == AsleepMapping(info, c)
  {
    forall t ensures ManagedKeys(info.filters, t, AsleepCluster(info, c)) == ManagedKeys(info.filters, t, c) {
      AsleepManagedSame(info, c, t);
    }
    ReloadedOver(info, c, AsleepCluster(info, c));
  }

  lemma SameMappings(a: Mapping, b: Mapping)
    requires a.Keys == b.Keys && forall t | t in b :: b[t] == a[t]
    ensures a == b
  {
  }

  /** The restore patch stored for an object. */
  lemma AsleepSaved(info: SleepInfo, c: Cluster, k: Key)
    requires WellFormed(c) && Suitable(info, c) && k in c
    requires k.target in BaseMapping(info, c) && Managed(info.filters, k.target, c, k)
    ensures k.target in AsleepMapping(info, c)
    ensures SavedFor(AsleepMapping(info, c)[k.target].restore, k.name)
         == RestoreOf(OpsOf(BaseMapping(info, c)[k.target].text), c[k])
  {
    var e := BaseMapping(info, c)[k.target];
    SavesAt(OpsOf(e.text), c, k.target, ManagedKeys(info.filters, k.target, c), e.restore, k.name);
    assert k == Key(k.target, k.name);
  }

  /** While asleep, no managed object of a target has anything left to do. */
  lemma AsleepTargetSkips(info: SleepInfo, c: Cluster, t: PatchTarget)
    requires WellFormed(c) && Suitable(info, c) && t in AsleepMapping(info, c)
    ensures AsleepMapping(info, c)[t].text.Ops?
    ensures forall k | k in ManagedKeys(info.filters, t, AsleepCluster(info, c)) ::
              var a := AsleepCluster(info, c)[k]; a.Obj? && SleepEffectOn(OpsOf(AsleepMapping(info, c)[t].text), a) == Skip
  {
    AsleepManagedSame(info, c, t);
    assert SuitableTarget(info, t, AsleepMapping(info, c)[t].text, c);
    forall k | k in ManagedKeys(info.filters, t, AsleepCluster(info, c))
      ensures var a := AsleepCluster(info, c)[k]; a.Obj? && SleepEffectOn(OpsOf(AsleepMapping(info, c)[t].text), a) == Skip
    {
      AsleepObject(info, c, k);
    }
  }

  ghost predicate SkipsAll(f: Filters, m: Mapping, a: Cluster)
    requires WellFormed(a)
  {
    forall t | t in m :: m[t].text.Ops? && forall k | k in ManagedKeys(f, t, a) :: SleepEffectOn(OpsOf(m[t].text), a[k]) == Skip
  }

  /** A Sleep that skips every managed object changes nothing and saves nothing new. */
  lemma SkippedCluster(f: Filters, m: Mapping, a: Cluster)
    requires WellFormed(a) && SkipsAll(f, m, a)
    ensures SleepCluster(f, m, a) == a && !SleepFails(f, m, a)
  {
    forall k | k in a ensures SleepAt(f, m, a, k) == a[k] {
      if k.target in m && Managed(f, k.target, a, k) {
        assert k in ManagedKeys(f, k.target, a);
      }
    }
  }

  lemma SkippedMapping(f: Filters, m: Mapping, a: Cluster)
    requires WellFormed(a) && SkipsAll(f, m, a)
    ensures SleepMapping(f, m, a) == m
  {
    forall t | t in m ensures m[t] == SleepMapping(f, m, a)[t] {
      NothingNewSaved(OpsOf(m[t].text), a, t, ManagedKeys(f, t, a), m[t].restore);
    }
    SameMappings(SleepMapping(f, m, a), m);
  }

  /** Sleeping again while asleep changes nothing and saves the same. */
  lemma SleepAgain(info: SleepInfo, c: Cluster)
    requires ValidInfo(info) && WellFormed(c) && Suitable(info, c)
    ensures SleepCluster(info.filters, AsleepMapping(info, c), AsleepCluster(info, c)) == AsleepCluster(info, c)
    ensures SleepMapping(info.filters, AsleepMapping(info, c), AsleepCluster(info, c)) == AsleepMapping(info, c)
    ensures !SleepFails(info.filters, AsleepMapping(info, c), AsleepCluster(info, c))
  {
    var m := AsleepMapping(info, c);
    forall t | t in m
      ensures m[t].text.Ops?
      ensures forall k | k in ManagedKeys(info.filters, t, AsleepCluster(info, c)) ::
                SleepEffectOn(OpsOf(m[t].text), AsleepCluster(info, c)[k]) == Skip
    {
      AsleepTargetSkips(info, c, t);
    }
    SkippedCluster(info.filters, m, AsleepCluster(info, c));
    SkippedMapping(info.filters, m, AsleepCluster(info, c));
  }

  lemma NothingNewSaved(ops: seq<Op>, c: Cluster, t: PatchTarget, keys: set<Key>, base: RestorePatches)
    requires forall k | k in keys :: k in c && c[k].Obj? && k.target == t && RestoreOf(ops, c[k]).None?
    ensures Saves(ops, c, t, keys, base) == base
  {
    forall n ensures SavedFor(Saves(ops, c, t, keys, base), n) == SavedFor(base, n) {
      SavesAt(ops, c, t, keys, base, n);
    }
    SameRestorePatches(Saves(ops, c, t, keys, base), base);
  }

  /** Waking what is asleep gives the original back. */
  lemma WakeGivesOriginal(info: SleepInfo, c: Cluster, k: Key)
    requires ValidInfo(info) && WellFormed(c) && Suitable(info, c) && k in c
    ensures WakeAt(info.filters, AsleepMapping(info, c), AsleepCluster(info, c), k) == c[k]
  {
    var f, m, a := info.filters, AsleepMapping(info, c), AsleepCluster(info, c);
    AsleepManagedSame(info, c, k.target);
    assert k in ManagedKeys(f, k.target, a) <==> Managed(f, k.target, a, k);
    assert k in ManagedKeys(f, k.target, c) <==> Managed(f, k.target, c, k);
    if k.target in m && Managed(f, k.target, a, k) {
      AsleepObject(info, c, k);
      AsleepSaved(info, c, k);
    } else {
      UnmanagedObject(info, c, k);
    }
  }

  lemma WakeTargetDoesNotFail(info: SleepInfo, c: Cluster, t: PatchTarget)
    requires ValidInfo(info) && WellFormed(c) && Suitable(info, c) && t in AsleepMapping(info, c)
    ensures !TargetWakeFails(info.filters, t, AsleepMapping(info, c)[t], AsleepCluster(info, c))
  {
    var f, m, a := info.filters, AsleepMapping(info, c), AsleepCluster(info, c);
    AsleepManagedSame(info, c, t);
    assert SuitableTarget(info, t, m[t].text, c);
    forall k | k in ManagedKeys(f, t, a) ensures WakeEffectOn(OpsOf(m[t].text), SavedFor(m[t].restore, k.name), a[k]) != Refuse {
      AsleepObject(info, c, k);
      AsleepSaved(info, c, k);
    }
  }

  lemma WakeDoesNotFail(info: SleepInfo, c: Cluster)
    requires ValidInfo(info) && WellFormed(c) && Suitable(info, c)
    ensures !WakeFails(info.filters, AsleepMapping(info, c), AsleepCluster(info, c))
  {
    forall t | t in AsleepMapping(info, c)
      ensures !TargetWakeFails(info.filters, t, AsleepMapping(info, c)[t], AsleepCluster(info, c))
    {
      WakeTargetDoesNotFail(info, c, t);
    }
  }

  /** Waking what is asleep gives the originals back, all of them. */
  lemma WakeAll(info: SleepInfo, c: Cluster)
    requires ValidInfo(info) && WellFormed(c) && Suitable(info, c)
    ensures WakeCluster(info.filters, AsleepMapping(info, c), AsleepCluster(info, c)) == c
    ensures !WakeFails(info.filters, AsleepMapping(info, c), AsleepCluster(info, c))
  {
    WakeDoesNotFail(info, c);
    forall k | k in c ensures WakeAt(info.filters, AsleepMapping(info, c), AsleepCluster(info, c), k) == c[k] {
      WakeGivesOriginal(info, c, k);
    }
  }

  lemma FirstSleep(info: SleepInfo, c: Cluster)
    requires WellFormed(c) && Suitable(info, c)
    ensures !SleepFails(info.filters, BaseMapping(info, c), c)
  {
    var m := BaseMapping(info, c);
    forall t | t in m ensures !TargetSleepFails(info.filters, t, m[t].text, c) {
      assert SuitableTarget(info, t, m[t].text, c);
      forall k | k in ManagedKeys(info.filters, t, c) ensures !SleepEffectOn(m[t].text.ops, c[k]).Fail? {
        AsleepObject(info, c, k);
      }
    }
  }

  // ---------------------------------------------------------------- one step

  /** The restore patches a state that satisfies the invariant loads. */
  ghost function Loaded(info: SleepInfo, c0: Cluster, asleep: bool): map<string, RestorePatches>
    requires ValidInfo(info) && WellFormed(c0)
  {
    AsleepDotFree(info, c0);
    if asleep then SaveInfo(AsleepMapping(info, c0)) else map[]
  }

  /** What is read from a Secret this version wrote, or without one. */
  lemma OwnData(info: SleepInfo, secret: Option<Secret>)
    requires secret.Some? ==> OwnSecret(secret.value)
    ensures var data := GetSleepInfoData(secret, info);
            && data.Some?
            && data.value.original == (if secret.Some? && secret.value.original.Some? then secret.value.original.value else map[])
            && (data.value.operation.WakeUpOperation? ==> IsAsleep(secret) && info.wakeUpAt.Some?)
            && (info.wakeUpAt.Some? && data.value.operation.SleepOperation? ==> !IsAsleep(secret))
  {
  }

  /** What a Secret holds in a state that satisfies the invariant. */
  lemma InvSecret(info: SleepInfo, c0: Cluster, s: State)
    requires ValidInfo(info) && WellFormed(c0) && Inv(info, c0, s)
    ensures s.secret.Some? ==> OwnSecret(s.secret.value)
    ensures IsAsleep(s.secret) ==> s.secret.value.original == Some(Loaded(info, c0, true))
    ensures !IsAsleep(s.secret) ==> Loaded(info, c0, false) == map[] && (s.secret.Some? ==> s.secret.value.original.None?)
  {
  }

  lemma StoredData(info: SleepInfo, c0: Cluster, s: State)
    requires ValidInfo(info) && WellFormed(c0) && Inv(info, c0, s)
    ensures var data := GetSleepInfoData(s.secret, info);
            && data.Some?
            && data.value.original == Loaded(info, c0, IsAsleep(s.secret))
            && (data.value.operation.WakeUpOperation? ==> IsAsleep(s.secret) && info.wakeUpAt.Some?)
            && (info.wakeUpAt.Some? && data.value.operation.SleepOperation? ==> !IsAsleep(s.secret))
  {
    InvSecret(info, c0, s);
    OwnData(info, s.secret);
  }

  /** The cluster that satisfies the invariant. */
  ghost function ClusterOf(info: SleepInfo, c0: Cluster, asleep: bool): Cluster
    requires WellFormed(c0)
  {
    if asleep then AsleepCluster(info, c0) else c0
  }

  lemma SameTargets(info: SleepInfo, c: Cluster)
    requires WellFormed(c)
    ensures AsleepMapping(info, c) == map[] <==> BaseMapping(info, c) == map[]
  {
    var a, b := AsleepMapping(info, c), BaseMapping(info, c);
    assert a.Keys == b.Keys;
    assert a == map[] <==> a.Keys == {};
    assert b == map[] <==> b.Keys == {};
  }

  lemma LoadedMapping(info: SleepInfo, c0: Cluster, asleep: bool, data: SleepInfoData)
    requires ValidInfo(info) && WellFormed(c0) && Suitable(info, c0)
    requires data.original == Loaded(info, c0, asleep)
    ensures MappingOf(info, ClusterOf(info, c0, asleep), data)
         == if asleep then AsleepMapping(info, c0) else BaseMapping(info, c0)
    ensures WellFormed(ClusterOf(info, c0, asleep))
  {
    AsleepDotFree(info, c0);
    SleepClusterWellFormed(info.filters, BaseMapping(info, c0), c0);
    if asleep { ReloadedMapping(info, c0); }
  }

  /** The cluster and the Secret an operation leads to, from either of the two states. */
  ghost function ResultOf(info: SleepInfo, c0: Cluster, operation: Operation, now: int): (Cluster, Secret)
    requires ValidInfo(info) && WellFormed(c0)
  {
    AsleepDotFree(info, c0);
    if operation.SleepOperation?
    then (AsleepCluster(info, c0), UpsertedSecret(now, SleepOperation, true, SaveInfo(AsleepMapping(info, c0))))
    else (c0, UpsertedSecret(now, WakeUpOperation, true, map[]))
  }

  /** An operation from a state that satisfies the invariant succeeds, and where it leads. */
  lemma OperationResult(info: SleepInfo, c0: Cluster, asleep: bool, data: SleepInfoData, now: int)
    requires ValidInfo(info) && WellFormed(c0) && Suitable(info, c0)
    requires data.original == Loaded(info, c0, asleep)
    requires data.operation.WakeUpOperation? ==> asleep
    ensures WellFormed(ClusterOf(info, c0, asleep))
    ensures Operate(info, ClusterOf(info, c0, asleep), data, now) == Some(ResultOf(info, c0, data.operation, now))
  {
    LoadedMapping(info, c0, asleep, data);
    AsleepDotFree(info, c0);
    if !asleep {
      FirstSleep(info, c0);
    } else if data.operation.SleepOperation? {
      SleepAgain(info, c0);
    } else {
      WakeAll(info, c0);
    }
  }

  lemma InvAsleep(info: SleepInfo, c0: Cluster, s': State, now: int)
    requires ValidInfo(info) && WellFormed(c0) && AllDotFree(AsleepMapping(info, c0)) && BaseMapping(info, c0) != map[]
    requires s'.cluster == AsleepCluster(info, c0)
    requires s'.secret == Some(UpsertedSecret(now, SleepOperation, true, SaveInfo(AsleepMapping(info, c0))))
    ensures Inv(info, c0, s')
  {
    assert IsAsleep(s'.secret);
    assert s'.secret.value.original == Some(SaveInfo(AsleepMapping(info, c0)));
  }

  lemma InvAwake(info: SleepInfo, c0: Cluster, s': State, now: int)
    requires ValidInfo(info) && WellFormed(c0)
    requires s'.cluster == c0 && s'.secret == Some(UpsertedSecret(now, WakeUpOperation, true, map[]))
    ensures Inv(info, c0, s')
  {
    assert !IsAsleep(s'.secret);
  }

  /** The two states operations lead to satisfy the invariant. */
  lemma InvAfter(info: SleepInfo, c0: Cluster, s': State, operation: Operation, now: int)
    requires ValidInfo(info) && WellFormed(c0) && BaseMapping(info, c0) != map[]
    requires s'.cluster == ResultOf(info, c0, operation, now).0 && s'.secret == Some(ResultOf(info, c0, operation, now).1)
    ensures Inv(info, c0, s')
  {
    AsleepDotFree(info, c0);
    if operation.SleepOperation? {
      InvAsleep(info, c0, s', now);
    } else {
      InvAwake(info, c0, s', now);
    }
  }

  lemma InvCluster(info: SleepInfo, c0: Cluster, s: State)
    requires ValidInfo(info) && WellFormed(c0) && Inv(info, c0, s)
    ensures s.cluster == ClusterOf(info, c0, IsAsleep(s.secret))
    ensures IsAsleep(s.secret) ==> BaseMapping(info, c0) != map[]
  {
  }

  lemma LoadedEmptiness(info: SleepInfo, c0: Cluster, asleep: bool, data: SleepInfoData)
    requires ValidInfo(info) && WellFormed(c0) && Suitable(info, c0)
    requires data.original == Loaded(info, c0, asleep)
    ensures MappingOf(info, ClusterOf(info, c0, asleep), data) == map[] <==> BaseMapping(info, c0) == map[]
  {
    LoadedMapping(info, c0, asleep, data);
    SameTargets(info, c0);
  }

  lemma OperationKeepsInv(info: SleepInfo, c0: Cluster, s: State, data: SleepInfoData, now: int, s': State)
    requires ValidInfo(info) && WellFormed(c0) && Suitable(info, c0)
    requires s.cluster == ClusterOf(info, c0, IsAsleep(s.secret)) && (IsAsleep(s.secret) ==> BaseMapping(info, c0) != map[])
    requires data.original == Loaded(info, c0, IsAsleep(s.secret))
    requires data.operation.WakeUpOperation? ==> IsAsleep(s.secret)
    ensures WellFormed(s.cluster) && Operate(info, s.cluster, data, now).Some?
    ensures MappingOf(info, s.cluster, data) == map[] ==> !IsAsleep(s.secret)
    ensures Operated(info, s, data, now, s') ==> Inv(info, c0, s')
  {
    OperationResult(info, c0, IsAsleep(s.secret), data, now);
    LoadedEmptiness(info, c0, IsAsleep(s.secret), data);
    if Operated(info, s, data, now, s') {
      SameResult((s'.cluster, s'.secret.value), ResultOf(info, c0, data.operation, now));
      InvAfter(info, c0, s', data.operation, now);
    }
  }

  lemma SameResult(a: (Cluster, Secret), b: (Cluster, Secret))
    requires Some(a) == Some(b)
    ensures a.0 == b.0 && a.1 == b.1
  {
  }

  lemma InvWellFormed(info: SleepInfo, c0: Cluster, s: State)
    requires ValidInfo(info) && WellFormed(c0) && Inv(info, c0, s)
    ensures WellFormed(s.cluster)
  {
    SleepClusterWellFormed(info.filters, BaseMapping(info, c0), c0);
  }

  /** A Secret without operation type leaves an awake state awake. */
  lemma NoResourceKeepsInv(info: SleepInfo, c0: Cluster, s: State, operation: Operation, now: int, s': State)
    requires ValidInfo(info) && WellFormed(c0) && Inv(info, c0, s) && !IsAsleep(s.secret)
    requires s'.cluster == s.cluster && s'.secret == Some(UpsertedSecret(now, operation, false, map[]))
    ensures Inv(info, c0, s')
  {
  }

  /** Status writes do not matter to the invariant. */
  lemma StatusKeepsInv(info: SleepInfo, c0: Cluster, s: State, s': State)
    requires ValidInfo(info) && WellFormed(c0) && Inv(info, c0, s)
    requires s'.cluster == s.cluster && s'.secret == s.secret
    ensures Inv(info, c0, s')
  {
  }

  /** Whatever a step did, it keeps the invariant. */
  lemma ShapeKeepsInv(info: SleepInfo, c0: Cluster, s: State, e: Event, s': State, action: Action)
    requires ValidInfo(info) && WellFormed(c0) && Suitable(info, c0) && Inv(info, c0, s) && WellFormed(s.cluster)
    requires StepShape(info, s, e, s', action)
    ensures Inv(info, c0, s')
  {
    StoredData(info, c0, s);
    InvCluster(info, c0, s);
    if Quiet(s, s', action) {
      StatusKeepsInv(info, c0, s, s');
    } else if FoundNothing(info, s, e, s', action) {
      var data := GetSleepInfoData(s.secret, info).value;
      OperationKeepsInv(info, c0, s, data, e.now, s);
      NoResourceKeepsInv(info, c0, s, data.operation, e.now, s');
    } else {
      var data :| Acted(info, s, e, data, s', action);
      OperationKeepsInv(info, c0, s, data, e.now, s');
    }
  }

  lemma StepCompletes(info: SleepInfo, sleepDelta: int, c0: Cluster, s: State, e: Event)
    requires ValidInfo(info) && WellFormed(c0) && Suitable(info, c0) && Inv(info, c0, s) && WellFormed(s.cluster)
    requires !e.Created?
    ensures StepOutcome(info, sleepDelta, s, e).Completed?
  {
    StoredData(info, c0, s);
    InvCluster(info, c0, s);
    StepInterruption(info, sleepDelta, s, e);
    if StepOutcome(info, sleepDelta, s, e) == Interrupted {
      var data :| MayOperate(info, s, e, data) && Operate(info, s.cluster, data, e.now).None?;
      OperationKeepsInv(info, c0, s, data, e.now, s);
    }
  }

  lemma RunStepKeepsInv(info: SleepInfo, sleepDelta: int, c0: Cluster, events: seq<Event>, states: seq<State>, i: nat)
    requires ValidInfo(info) && IsRunFrom(info, sleepDelta, events, states) && i < |events|
    requires WellFormed(c0) && Suitable(info, c0) && Inv(info, c0, states[i])
    ensures Inv(info, c0, states[i + 1])
  {
    RunSteps(info, sleepDelta, events, states, i);
    StepHasShape(info, sleepDelta, states[i], events[i]);
    ShapeKeepsInv(info, c0, states[i], events[i], states[i + 1], StepOutcome(info, sleepDelta, states[i], events[i]).action);
  }

  /** Every state of a run that starts in one of the two states of a cluster `c0` is one of
      them. */
  lemma {:induction false} RunKeepsInv(info: SleepInfo, sleepDelta: int, c0: Cluster, events: seq<Event>, states: seq<State>, n: nat)
    requires ValidInfo(info) && IsRunFrom(info, sleepDelta, events, states) && n <= |events|
    requires WellFormed(c0) && Suitable(info, c0) && Inv(info, c0, states[0])
    ensures Inv(info, c0, states[n])
  {
    if n > 0 {
      RunKeepsInv(info, sleepDelta, c0, events, states, n - 1);
      RunStepKeepsInv(info, sleepDelta, c0, events, states, n - 1);
    }
  }

  // ---------------------------------------------------------------- the theorem

  /** The patch in force on an object, if it is managed and not controlled. */
  ghost function PatchOn(info: SleepInfo, c: Cluster, k: Key): Option<PatchText>
    requires k in c
  {
    if Managed(info.filters, k.target, c, k) && !IsControlled(c[k]) then PatchFor(GetPatches(info), k.target) else None
  }

  /** The object is the patched original; and if that is a change, the Secret holds a restore
      patch for it which merged into it gives the original back. */
  ghost predicate SleptWithWayBack(original: Json, now: Json, ops: seq<Op>, saved: map<string, RestorePatches>, k: Key)
    requires original.Obj?
  {
    match Exec(ops, original)
    case Err(_) => now == original
    case Ok(patched) =>
      && now == patched
      && (patched != original ==>
            && TargetString(k.target) in saved && k.name in saved[TargetString(k.target)]
            && Merge(now, Obj(saved[TargetString(k.target)][k.name])) == original)
  }

  lemma SleptObject(info: SleepInfo, c: Cluster, k: Key)
    requires ValidInfo(info) && WellFormed(c) && Suitable(info, c) && k in c && AllDotFree(AsleepMapping(info, c))
    ensures var patch := PatchOn(info, c, k);
            match patch
            case None => AsleepCluster(info, c)[k] == c[k]
            case Some(text) => text.Ops? && SleptWithWayBack(c[k], AsleepCluster(info, c)[k], text.ops, SaveInfo(AsleepMapping(info, c)), k)
  {
    PatchForIsLast(GetPatches(info), k.target);
    if k.target in BaseMapping(info, c) && Managed(info.filters, k.target, c, k) {
      var text := BaseMapping(info, c)[k.target].text;
      assert SuitableTarget(info, k.target, text, c);
      AsleepObject(info, c, k);
      AsleepSaved(info, c, k);
      SaveThenLoad(SaveInfo(AsleepMapping(info, c)), AsleepMapping(info, c), k.target);
      assert k in ManagedKeys(info.filters, k.target, c);
      SleepGivesPatched(text.ops, c[k]);
      if Exec(text.ops, c[k]).Ok? && !IsControlled(c[k]) { DiffEmptyIff(Exec(text.ops, c[k]).value, c[k]); }
    } else {
      UnmanagedObject(info, c, k);
      if Managed(info.filters, k.target, c, k) { assert k in ManagedKeys(info.filters, k.target, c); }
    }
  }

  /** An object of a state, compared with the original cluster: if the Secret says SLEEP, a
      managed object is the patched original with the way back stored and any other object is
      untouched; if it says anything else, or there is none, the object is the original. */
  ghost predicate OriginalOrWayBack(info: SleepInfo, c0: Cluster, s: State, k: Key)
    requires WellFormed(c0) && k in c0
  {
    && k in s.cluster
    && (!IsAsleep(s.secret) ==> s.cluster[k] == c0[k])
    && (IsAsleep(s.secret) ==>
          match PatchOn(info, c0, k)
          case None => s.cluster[k] == c0[k]
          case Some(text) =>
            text.Ops? && s.secret.value.original.Some?
            && SleptWithWayBack(c0[k], s.cluster[k], text.ops, s.secret.value.original.value, k))
  }

  lemma InvMeans(info: SleepInfo, c0: Cluster, s: State, k: Key)
    requires ValidInfo(info) && WellFormed(c0) && Suitable(info, c0) && Inv(info, c0, s) && k in c0
    ensures OriginalOrWayBack(info, c0, s, k)
  {
    if IsAsleep(s.secret) {
      SleptObject(info, c0, k);
    }
  }

  /** Whole-run restore: in every state that any interleaving of scheduled and forced
      reconciles reaches, every object is the original, or the patched original with the way
      back stored; and no object appears or disappears. */
  lemma RestoreTheorem(info: SleepInfo, sleepDelta: int, events: seq<Event>, states: seq<State>, n: nat, k: Key)
    requires ValidInfo(info) && IsRun(info, sleepDelta, events, states) && Suitable(info, states[0].cluster)
    requires n <= |events|
    ensures k in states[n].cluster <==> k in states[0].cluster
    ensures k in states[0].cluster ==> OriginalOrWayBack(info, states[0].cluster, states[n], k)
  {
    RunKeepsInv(info, sleepDelta, states[0].cluster, events, states, n);
    InvCluster(info, states[0].cluster, states[n]);
    if k in states[0].cluster {
      InvMeans(info, states[0].cluster, states[n], k);
    }
  }

  /** What sleep is for: while the Secret says SLEEP, every selected object that no controller
      owns has the value of the patch in force at its path, if that patch is a single add that
      applies to the object. */
  lemma AsleepHasPatchedValue(info: SleepInfo, sleepDelta: int, events: seq<Event>, states: seq<State>, n: nat, k: Key, op: Op)
    requires ValidInfo(info) && IsRun(info, sleepDelta, events, states) && Suitable(info, states[0].cluster) && n <= |events|
    requires IsAsleep(states[n].secret) && k in states[0].cluster
    requires Selected(info.filters, k.target, states[0].cluster[k]) && !IsControlled(states[0].cluster[k])
    requires PatchFor(GetPatches(info), k.target) == Some(Ops([op])) && op.Add? && Addable(states[0].cluster[k], op.path)
    ensures k in states[n].cluster && Lookup(states[n].cluster[k], op.path) == Some(op.value)
  {
    var o := states[0].cluster[k];
    RestoreTheorem(info, sleepDelta, events, states, n, k);
    assert PatchOn(info, states[0].cluster, k) == Some(Ops([op]));
    OneAddSettles(op, o);
  }

  lemma OneAddSettles(op: Op, o: Json)
    requires op.Add? && Addable(o, op.path)
    ensures Exec([op], o).Ok? && Lookup(Exec([op], o).value, op.path) == Some(op.value)
  {
    AddAppliesIff(o, op.path, op.value);
    OpSettles(op, o);
    assert [op][1..] == [];
  }

  /** So with the default patches, read off the SleepInfo and the object: while the Secret says
      SLEEP, every selected Deployment or StatefulSet whose switch is not off is at zero replicas
      and, if its switch is on, every selected CronJob is suspended. */
  lemma AsleepMeansScaledDown(info: SleepInfo, sleepDelta: int, events: seq<Event>, states: seq<State>, n: nat, k: Key)
    requires ValidInfo(info) && IsRun(info, sleepDelta, events, states) && Suitable(info, states[0].cluster) && n <= |events|
    requires IsAsleep(states[n].secret) && k in states[0].cluster
    requires Selected(info.filters, k.target, states[0].cluster[k]) && !IsControlled(states[0].cluster[k])
    requires PatchFor(info.patches, k.target).None? && HasRoom(Lookup(states[0].cluster[k], ["spec"]))
    ensures k in states[n].cluster
    ensures (k.target == PatchTarget("apps", "Deployment") && info.suspendDeployments != Some(false))
            || (k.target == PatchTarget("apps", "StatefulSet") && info.suspendStatefulSets != Some(false))
            ==> Lookup(states[n].cluster[k], ["spec", "replicas"]) == Some(Num(0.0))
    ensures k.target == PatchTarget("batch", "CronJob") && info.suspendCronJobs
            ==> Lookup(states[n].cluster[k], ["spec", "suspend"]) == Some(Bool(true))
  {
    RestoreTheorem(info, sleepDelta, events, states, n, k);
    PatchInForce(info, k.target);
    var text := PatchFor(GetPatches(info), k.target);
    assert !IsDigit("replicas"[0]) && !IsDigit("suspend"[0]);
    if text == Some(Ops(SCALE_TO_ZERO)) {
      SpecIsAddable("replicas", states[0].cluster[k]);
      AsleepHasPatchedValue(info, sleepDelta, events, states, n, k, SCALE_TO_ZERO[0]);
    }
    if text == Some(Ops(SUSPEND_JOBS)) {
      SpecIsAddable("suspend", states[0].cluster[k]);
      AsleepHasPatchedValue(info, sleepDelta, events, states, n, k, SUSPEND_JOBS[0]);
    }
    assert "CronJob"[0] == 'C' && "Deployment"[0] == 'D' && "StatefulSet"[0] == 'S';
  }

  lemma SpecIsAddable(field: string, o: Json)
    requires o.Obj? && HasRoom(Lookup(o, ["spec"])) && !IsArrayStep(field)
    ensures Addable(o, ["spec", field])
  {
    var p: Path := ["spec", field];
    assert p[..0] == [] && p[..1] == ["spec"];
    assert AddableAt(o, p, 0) && AddableAt(o, p, 1);
  }

  /** Such a run can always go on: no reconcile is rejected or interrupted. */
  lemma ReconcilesComplete(info: SleepInfo, sleepDelta: int, events: seq<Event>, states: seq<State>, e: Event)
    requires ValidInfo(info) && IsRun(info, sleepDelta, events, states) && Suitable(info, states[0].cluster)
    requires !e.Created?
    ensures WellFormed(states[|events|].cluster) && StepOutcome(info, sleepDelta, states[|events|], e).Completed?
  {
    var last := states[|events|];
    RunKeepsInv(info, sleepDelta, states[0].cluster, events, states, |events|);
    InvWellFormed(info, states[0].cluster, last);
    StepCompletes(info, sleepDelta, states[0].cluster, last, e);
  }

  // ---------------------------------------------------------------- when the hypotheses hold

  ghost predicate AllPlain(patches: seq<Patch>) {
    forall i | 0 <= i < |patches| :: patches[i].text.Ops? && PlainPatch(patches[i].text.ops)
  }

  /** The patch of a target touches no null of the objects it is applied to. */
  ghost predicate TargetTouchesNoNull(info: SleepInfo, t: PatchTarget, text: PatchText, c: Cluster)
  {
    forall k | k in ManagedKeys(info.filters, t, c) && !IsControlled(c[k]) && Exec(OpsOf(text), c[k]).Ok? ::
      NullsUntouched(OpsOf(text), c[k])
  }

  ghost predicate TouchesNoNull(info: SleepInfo, c: Cluster)
  {
    forall t | t in Targets(GetPatches(info)) ::
      PatchFor(GetPatches(info), t).Some? && TargetTouchesNoNull(info, t, PatchFor(GetPatches(info), t).value, c)
  }

  lemma PlainTargetIsSuitableIff(info: SleepInfo, t: PatchTarget, text: PatchText, c: Cluster)
    requires WellFormed(c) && text.Ops? && PlainPatch(text.ops)
    ensures SuitableTarget(info, t, text, c) <==> TargetTouchesNoNull(info, t, text, c)
  {
    forall k | k in ManagedKeys(info.filters, t, c)
      ensures Restorable(text.ops, c[k]) <==> (!IsControlled(c[k]) && Exec(text.ops, c[k]).Ok? ==> NullsUntouched(text.ops, c[k]))
    {
      if !IsControlled(c[k]) && Exec(text.ops, c[k]).Ok? { PlainPatchIsRestorableIff(text.ops, c[k]); }
    }
  }

  lemma PlainPatchFor(patches: seq<Patch>, t: PatchTarget)
    requires AllPlain(patches) && t in Targets(patches)
    ensures PatchFor(patches, t).Some? && PatchFor(patches, t).value.Ops? && PlainPatch(PatchFor(patches, t).value.ops)
  {
    PatchForIsLast(patches, t);
  }

  /** With plain patches, the restore theorem applies exactly when no patch touches a null of
      an object it manages. */
  lemma PlainIsSuitableIff(info: SleepInfo, c: Cluster)
    requires WellFormed(c) && AllPlain(GetPatches(info))
    ensures Suitable(info, c) <==> TouchesNoNull(info, c)
  {
    var patches := GetPatches(info);
    forall t | t in Targets(patches)
      ensures PatchFor(patches, t).Some?
      ensures SuitableTarget(info, t, PatchFor(patches, t).value, c) <==> TargetTouchesNoNull(info, t, PatchFor(patches, t).value, c)
    {
      PlainPatchFor(patches, t);
      PlainTargetIsSuitableIff(info, t, PatchFor(patches, t).value, c);
    }
  }

  /** The operations of a default patch and the field they write. */
  function DefaultOps(t: PatchTarget): seq<Op> { if t == CRON_JOB then SUSPEND_JOBS else SCALE_TO_ZERO }
  function DefaultField(t: PatchTarget): Path { if t == CRON_JOB then SUSPEND else REPLICAS }

  /** Wherever its default patch applies, neither the spec nor the field it writes is null. */
  ghost predicate DefaultFieldIsSound(info: SleepInfo, t: PatchTarget, c: Cluster)
  {
    forall k | k in ManagedKeys(info.filters, t, c) && !IsControlled(c[k]) && Exec(DefaultOps(t), c[k]).Ok? ::
      Lookup(c[k], ["spec"]) != Some(Null) && NoNullAt(c[k], DefaultField(t))
  }

  ghost predicate DefaultFieldsAreSound(info: SleepInfo, c: Cluster)
  {
    forall t | t in Targets(GetPatches(info)) :: DefaultFieldIsSound(info, t, c)
  }

  lemma DefaultPatchFor(info: SleepInfo, t: PatchTarget)
    requires info.patches == [] && t in Targets(GetPatches(info))
    ensures PatchFor(GetPatches(info), t) == Some(Ops(DefaultOps(t)))
  {
    PatchForIsLast(GetPatches(info), t);
    assert CRON_JOB.kind == "CronJob" && DEPLOYMENT.kind == "Deployment" && STATEFUL_SET.kind == "StatefulSet";
    assert "CronJob"[0] == 'C' && "Deployment"[0] == 'D' && "StatefulSet"[0] == 'S';
  }

  lemma DefaultsArePlain(info: SleepInfo)
    requires info.patches == []
    ensures AllPlain(GetPatches(info))
  {
    SpecPathIsFree("replicas", Num(0.0));
    SpecPathIsFree("suspend", Bool(true));
  }

  lemma DefaultUntouchedIff(t: PatchTarget, o: Json)
    requires o.Obj?
    ensures NullsUntouched(DefaultOps(t), o) <==> Lookup(o, ["spec"]) != Some(Null) && NoNullAt(o, DefaultField(t))
  {
    SpecFieldUntouchedIff("replicas", Num(0.0), o);
    SpecFieldUntouchedIff("suspend", Bool(true), o);
  }

  lemma DefaultTargetIff(info: SleepInfo, t: PatchTarget, c: Cluster)
    requires WellFormed(c)
    ensures TargetTouchesNoNull(info, t, Ops(DefaultOps(t)), c) <==> DefaultFieldIsSound(info, t, c)
  {
    forall k | k in ManagedKeys(info.filters, t, c)
      ensures NullsUntouched(DefaultOps(t), c[k]) <==> Lookup(c[k], ["spec"]) != Some(Null) && NoNullAt(c[k], DefaultField(t))
    {
      DefaultUntouchedIff(t, c[k]);
    }
  }

  /** So a SleepInfo with the default patches only, whatever its switches and filters: exactly
      when no spec and no patched field of its objects is null. */
  lemma DefaultsAreSuitableIff(info: SleepInfo, c: Cluster)
    requires WellFormed(c) && info.patches == []
    ensures Suitable(info, c) <==> DefaultFieldsAreSound(info, c)
  {
    DefaultsArePlain(info);
    PlainIsSuitableIff(info, c);
    forall t | t in Targets(GetPatches(info))
      ensures PatchFor(GetPatches(info), t) == Some(Ops(DefaultOps(t)))
      ensures TargetTouchesNoNull(info, t, Ops(DefaultOps(t)), c) <==> DefaultFieldIsSound(info, t, c)
    {
      DefaultPatchFor(info, t);
      DefaultTargetIff(info, t, c);
    }
  }
}
