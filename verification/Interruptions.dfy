/** Reconciles that do not complete: what a Sleep or a WakeUp that stops halfway, or whose
    Secret is not written, costs in the end. */
module Interruptions {
  import opened JsonDocs
  import opened Patcher
  import opened ApiObjects
  import opened Selector
  import opened SleepDocs
  import opened Resources
  import opened ManagedResources
  import opened SleepInfos
  import opened Controllers
  import opened RestoreRuns

  // ---------------------------------------------------------------- an interrupted Sleep

  /** A slept resource is a fixpoint, so it is restorable: to itself. */
  lemma SleptIsRestorable(ops: seq<Op>, o: Json)
    requires Identified(o) && KeepsMetadata(ops) && Restorable(ops, o)
    ensures SleepDoc(ops, o).Obj? && Restorable(ops, SleepDoc(ops, o))
  {
    SleepGivesPatched(ops, o);
    if !IsControlled(o) && Exec(ops, o).Ok? {
      var m := Exec(ops, o).value;
      DiffEmptyIff(m, m);
      SharesOwnNulls(m);
    }
  }

  /** The cluster when a Sleep of `c` stopped halfway. */
  ghost predicate HalfAsleep(info: SleepInfo, c: Cluster, objects: Cluster)
    requires WellFormed(c)
  {
    PartlySlept(info.filters, BaseMapping(info, c), c, objects)
  }

  lemma HalfAsleepObject(info: SleepInfo, c: Cluster, objects: Cluster, t: PatchTarget, k: Key)
    requires WellFormed(c) && Suitable(info, c) && HalfAsleep(info, c, objects) && k in c
    ensures Identified(objects[k]) && Name(objects[k]) == k.name
    ensures Managed(info.filters, t, objects, k) <==> Managed(info.filters, t, c, k)
  {
    AsleepManagedSame(info, c, t);
    var a := AsleepCluster(info, c);
    assert k in ManagedKeys(info.filters, t, a) <==> k in ManagedKeys(info.filters, t, c);
  }

  lemma HalfAsleepRestorable(info: SleepInfo, c: Cluster, objects: Cluster, k: Key, text: PatchText)
    requires WellFormed(c) && Suitable(info, c) && HalfAsleep(info, c, objects)
    requires k in c && Managed(info.filters, k.target, c, k) && k.target in Targets(GetPatches(info))
    requires PatchFor(GetPatches(info), k.target) == Some(text)
    ensures text.Ops? && objects[k].Obj? && Restorable(text.ops, objects[k])
  {
    assert SuitableTarget(info, k.target, text, c);
    assert k in ManagedKeys(info.filters, k.target, c);
    assert BaseMapping(info, c)[k.target].text == text;
    AsleepObject(info, c, k);
    SleptIsRestorable(text.ops, c[k]);
  }

  /** What an interrupted Sleep leaves meets all hypotheses again, as a cluster of its own. */
  lemma HalfAsleepIsSuitable(info: SleepInfo, c: Cluster, objects: Cluster)
    requires WellFormed(c) && Suitable(info, c) && HalfAsleep(info, c, objects)
    ensures WellFormed(objects) && Suitable(info, objects)
  {
    forall k | k in objects ensures Identified(objects[k]) && Name(objects[k]) == k.name {
      HalfAsleepObject(info, c, objects, k.target, k);
    }
    forall t | t in Targets(GetPatches(info))
      ensures PatchFor(GetPatches(info), t).Some? && SuitableTarget(info, t, PatchFor(GetPatches(info), t).value, objects)
    {
      var text := PatchFor(GetPatches(info), t).value;
      assert SuitableTarget(info, t, text, c);
      forall k | k in ManagedKeys(info.filters, t, objects) ensures Restorable(text.ops, objects[k]) {
        HalfAsleepObject(info, c, objects, t, k);
        HalfAsleepRestorable(info, c, objects, k, text);
      }
    }
  }

  /** The retried Sleep with what it saves, and the wake-up that loads it, lead back to where
      the interrupted Sleep stopped: an object is the original again exactly if the
      interrupted Sleep had not reached it. */
  lemma RetriedSleepLosesIff(info: SleepInfo, c: Cluster, objects: Cluster, k: Key)
    requires ValidInfo(info) && WellFormed(c) && Suitable(info, c) && HalfAsleep(info, c, objects) && k in c
    ensures WellFormed(objects)
    ensures var a, saves := AsleepCluster(info, objects), AsleepMapping(info, objects);
            && AllDotFree(saves) && !SleepFails(info.filters, BaseMapping(info, objects), objects)
            && var loaded := NewMapping(GetPatches(info), info.filters, a, SaveInfo(saves));
               && !WakeFails(info.filters, loaded, a)
               && k in WakeCluster(info.filters, loaded, a)
               && (WakeCluster(info.filters, loaded, a)[k] == c[k] <==> objects[k] == c[k])
  {
    HalfAsleepIsSuitable(info, c, objects);
    AsleepDotFree(info, objects);
    FirstSleep(info, objects);
    ReloadedMapping(info, objects);
    WakeAll(info, objects);
  }

  /** Over runs: after a Sleep that was interrupted in an awake state, and whatever the two
      controllers do then, in every state the Secret does not call asleep an object is the
      original exactly if the interrupted Sleep had not reached it. */
  lemma InterruptedSleepLosesIff(info: SleepInfo, sleepDelta: int, before: State, c: Cluster,
                                 events: seq<Event>, states: seq<State>, n: nat, k: Key)
    requires ValidInfo(info) && WellFormed(c) && Suitable(info, c) && Inv(info, c, before) && !IsAsleep(before.secret)
    requires IsRunFrom(info, sleepDelta, events, states) && n <= |events|
    requires states[0].secret == before.secret && HalfAsleep(info, c, states[0].cluster)
    requires k in c && !IsAsleep(states[n].secret)
    ensures k in states[n].cluster && (states[n].cluster[k] == c[k] <==> states[0].cluster[k] == c[k])
  {
    HalfAsleepIsSuitable(info, c, states[0].cluster);
    RunKeepsInv(info, sleepDelta, states[0].cluster, events, states, n);
  }

  // ---------------------------------------------------------------- an interrupted WakeUp

  /** The cluster when a WakeUp of the asleep `c` stopped halfway. */
  ghost predicate HalfAwake(info: SleepInfo, c: Cluster, objects: Cluster)
    requires WellFormed(c)
  {
    PartlyWoken(info.filters, AsleepMapping(info, c), AsleepCluster(info, c), objects)
  }

  /** A woken object is left alone: either nothing was saved for it, or the sleep patch would
      change it again. */
  lemma WokenIsLeft(ops: seq<Op>, o: Json)
    requires Identified(o) && KeepsMetadata(ops) && Restorable(ops, o)
    ensures WakeEffectOn(ops, RestoreOf(ops, o), o) == Leave
  {
    if RestoreOf(ops, o).Some? {
      ChangeShape(ops, o);
      DiffEmptyIff(Exec(ops, o).value, o);
    }
  }

  lemma HalfAwakeObject(info: SleepInfo, c: Cluster, objects: Cluster, k: Key)
    requires ValidInfo(info) && WellFormed(c) && Suitable(info, c) && HalfAwake(info, c, objects) && k in c
    ensures objects[k] == c[k] || objects[k] == AsleepCluster(info, c)[k]
    ensures Identified(objects[k]) && Name(objects[k]) == k.name
    ensures Managed(info.filters, k.target, objects, k) <==> Managed(info.filters, k.target, c, k)
  {
    WakeAll(info, c);
    AsleepManagedSame(info, c, k.target);
    assert k in ManagedKeys(info.filters, k.target, AsleepCluster(info, c)) <==> k in ManagedKeys(info.filters, k.target, c);
  }

  lemma HalfAwakeWakes(info: SleepInfo, c: Cluster, objects: Cluster, k: Key)
    requires ValidInfo(info) && WellFormed(c) && Suitable(info, c) && HalfAwake(info, c, objects) && k in c
    requires objects[k].Obj?
    ensures WakeAt(info.filters, AsleepMapping(info, c), objects, k) == c[k]
    ensures k.target in AsleepMapping(info, c) && Managed(info.filters, k.target, objects, k) ==>
              var e := AsleepMapping(info, c)[k.target]; WakeEffectOn(OpsOf(e.text), SavedFor(e.restore, k.name), objects[k]) != Refuse
  {
    HalfAwakeObject(info, c, objects, k);
    var m := AsleepMapping(info, c);
    if k.target in m && Managed(info.filters, k.target, c, k) {
      var text := BaseMapping(info, c)[k.target].text;
      assert SuitableTarget(info, k.target, text, c);
      assert k in ManagedKeys(info.filters, k.target, c);
      AsleepObject(info, c, k);
      AsleepSaved(info, c, k);
      WokenIsLeft(text.ops, c[k]);
    } else {
      UnmanagedObject(info, c, k);
    }
  }

  lemma HalfAwakeManagedSame(info: SleepInfo, c: Cluster, objects: Cluster, t: PatchTarget)
    requires ValidInfo(info) && WellFormed(c) && Suitable(info, c) && HalfAwake(info, c, objects)
    ensures ManagedKeys(info.filters, t, objects) == ManagedKeys(info.filters, t, c)
  {
    forall k | k in c ensures Managed(info.filters, t, objects, k) <==> Managed(info.filters, t, c, k) {
      HalfAwakeObject(info, c, objects, k);
    }
  }

  /** The retried WakeUp, which loads what the Secret still holds, completes what the
      interrupted one began: every object is the original again. */
  lemma InterruptedWakeUpLosesNothing(info: SleepInfo, c: Cluster, objects: Cluster)
    requires ValidInfo(info) && WellFormed(c) && Suitable(info, c) && HalfAwake(info, c, objects)
    ensures WellFormed(objects) && AllDotFree(AsleepMapping(info, c))
    ensures var loaded := NewMapping(GetPatches(info), info.filters, objects, SaveInfo(AsleepMapping(info, c)));
            WakeCluster(info.filters, loaded, objects) == c && !WakeFails(info.filters, loaded, objects)
  {
    forall k | k in objects ensures Identified(objects[k]) && Name(objects[k]) == k.name {
      HalfAwakeObject(info, c, objects, k);
    }
    AsleepDotFree(info, c);
    forall t ensures ManagedKeys(info.filters, t, objects) == ManagedKeys(info.filters, t, c) {
      HalfAwakeManagedSame(info, c, objects, t);
    }
    ReloadedOver(info, c, objects);
    HalfAwakeWakesAll(info, c, objects);
    HalfAwakeDoesNotFail(info, c, objects);
  }

  lemma HalfAwakeWakesAll(info: SleepInfo, c: Cluster, objects: Cluster)
    requires ValidInfo(info) && WellFormed(c) && Suitable(info, c) && HalfAwake(info, c, objects) && WellFormed(objects)
    ensures WakeCluster(info.filters, AsleepMapping(info, c), objects) == c
  {
    forall k | k in c ensures WakeAt(info.filters, AsleepMapping(info, c), objects, k) == c[k] {
      HalfAwakeWakes(info, c, objects, k);
    }
  }

  lemma HalfAwakeTarget(info: SleepInfo, c: Cluster, objects: Cluster, t: PatchTarget)
    requires ValidInfo(info) && WellFormed(c) && Suitable(info, c) && HalfAwake(info, c, objects) && WellFormed(objects)
    requires t in AsleepMapping(info, c)
    ensures !TargetWakeFails(info.filters, t, AsleepMapping(info, c)[t], objects)
  {
    var m := AsleepMapping(info, c);
    assert SuitableTarget(info, t, m[t].text, c);
    forall k | k in ManagedKeys(info.filters, t, objects)
      ensures WakeEffectOn(OpsOf(m[t].text), SavedFor(m[t].restore, k.name), objects[k]) != Refuse
    {
      HalfAwakeWakes(info, c, objects, k);
    }
  }

  lemma HalfAwakeDoesNotFail(info: SleepInfo, c: Cluster, objects: Cluster)
    requires ValidInfo(info) && WellFormed(c) && Suitable(info, c) && HalfAwake(info, c, objects) && WellFormed(objects)
    ensures !WakeFails(info.filters, AsleepMapping(info, c), objects)
  {
    forall t | t in AsleepMapping(info, c) ensures !TargetWakeFails(info.filters, t, AsleepMapping(info, c)[t], objects) {
      HalfAwakeTarget(info, c, objects, t);
    }
  }
}
