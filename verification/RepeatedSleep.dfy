/** Sleeping several times in a row, with save and reload in between, while the cluster is
    edited from outside: which original the Secret holds in the end. */
module RepeatedSleep {
  import opened JsonDocs
  import opened Patcher
  import opened Selector
  import opened SleepDocs
  import opened Resources
  import opened SleepInfos
  import opened Controllers

  type Saved = map<string, RestorePatches>

  /** One run: load the restore patches, build the mapping, sleep, save. */
  function SavedAfterSleep(info: SleepInfo, c: Cluster, saved: Saved): Saved
    requires ValidInfo(info) && WellFormed(c)
  {
    var m := NewMapping(GetPatches(info), info.filters, c, saved);
    var after := SleepMapping(info.filters, m, c);
    assert AllDotFree(after);
    SaveInfo(after)
  }

  ghost predicate AllWellFormed(clusters: seq<Cluster>) {
    forall i | 0 <= i < |clusters| :: WellFormed(clusters[i])
  }

  /** The clusters are those each Sleep found; anything may have happened in between. */
  ghost function SavedAfterAll(info: SleepInfo, clusters: seq<Cluster>, saved: Saved): Saved
    requires ValidInfo(info) && AllWellFormed(clusters)
  {
    if clusters == [] then saved
    else SavedAfterSleep(info, clusters[|clusters| - 1], SavedAfterAll(info, clusters[..|clusters| - 1], saved))
  }

  /** What a Sleep that finds the cluster `c` keeps for an object, if it changes it. */
  function NewEntry(info: SleepInfo, c: Cluster, k: Key): Option<Object>
    requires WellFormed(c)
  {
    var text := PatchFor(GetPatches(info), k.target);
    if text.Some? && Managed(info.filters, k.target, c, k) then RestoreOf(OpsOf(text.value), c[k]) else None
  }

  function EntryOf(saved: Saved, k: Key): Option<Object> {
    SavedFor(LoadFor(saved, k.target), k.name)
  }

  /** The entry of an object after one more Sleep: the new one if the Sleep changes the
      object, else the one it had; but none at all if its target has no object listed. */
  lemma EntryAfterSleep(info: SleepInfo, c: Cluster, saved: Saved, k: Key)
    requires ValidInfo(info) && WellFormed(c) && k.target in Targets(GetPatches(info))
    ensures EntryOf(SavedAfterSleep(info, c, saved), k) ==
            if ManagedKeys(info.filters, k.target, c) == {} then None
            else if NewEntry(info, c, k).Some? then NewEntry(info, c, k)
            else EntryOf(saved, k)
  {
    var m := NewMapping(GetPatches(info), info.filters, c, saved);
    var after := SleepMapping(info.filters, m, c);
    var stored := SavedAfterSleep(info, c, saved);
    PatchForIsLast(GetPatches(info), k.target);
    if k.target in m {
      var e := m[k.target];
      SaveThenLoad(stored, after, k.target);
      SavesAt(OpsOf(e.text), c, k.target, ManagedKeys(info.filters, k.target, c), e.restore, k.name);
      assert k == Key(k.target, k.name);
      assert k in ManagedKeys(info.filters, k.target, c) <==> Managed(info.filters, k.target, c, k);
    } else {
      UnmappedIsNotSaved(stored, after, k.target);
    }
  }

  lemma UnmappedIsNotSaved(saved: Saved, m: Mapping, t: PatchTarget)
    requires IsSaveOf(saved, m) && AllDotFree(m) && DotFree(t.kind) && t !in m
    ensures LoadFor(saved, t) == map[]
  {
    if TargetString(t) in saved {
      var t' :| t' in m && TargetString(t') == TargetString(t);
      TargetStringInjective(t, t');
    }
  }

  /** Every Sleep from index `from` on finds objects of the target and leaves this one as it is. */
  ghost predicate KeptFrom(info: SleepInfo, clusters: seq<Cluster>, k: Key, from: nat)
    requires AllWellFormed(clusters)
  {
    forall i | from <= i < |clusters| ::
      ManagedKeys(info.filters, k.target, clusters[i]) != {} && NewEntry(info, clusters[i], k).None?
  }

  /** What a new entry is: the reverse difference to the state before the Sleep. */
  lemma NewEntryMeans(info: SleepInfo, c: Cluster, k: Key)
    requires WellFormed(c) && NewEntry(info, c, k).Some?
    ensures var text := PatchFor(GetPatches(info), k.target);
            && text.Some? && k in ManagedKeys(info.filters, k.target, c)
            && Exec(OpsOf(text.value), c[k]).Ok? && Exec(OpsOf(text.value), c[k]).value.Obj?
            && NewEntry(info, c, k) == Some(Diff(Exec(OpsOf(text.value), c[k]).value, c[k]))
  {
    ChangeShape(OpsOf(PatchFor(GetPatches(info), k.target).value), c[k]);
  }

  lemma EntryAfterChange(info: SleepInfo, clusters: seq<Cluster>, c: Cluster, saved: Saved, k: Key)
    requires ValidInfo(info) && AllWellFormed(clusters) && WellFormed(c)
    requires k.target in Targets(GetPatches(info)) && |clusters| > 0 && clusters[|clusters| - 1] == c
    requires NewEntry(info, c, k).Some?
    ensures EntryOf(SavedAfterAll(info, clusters, saved), k) == NewEntry(info, c, k)
  {
    var n := |clusters| - 1;
    NewEntryMeans(info, c, k);
    EntryAfterSleep(info, c, SavedAfterAll(info, clusters[..n], saved), k);
  }

  lemma EntrySurvives(info: SleepInfo, clusters: seq<Cluster>, saved: Saved, k: Key)
    requires ValidInfo(info) && AllWellFormed(clusters)
    requires k.target in Targets(GetPatches(info)) && |clusters| > 0
    requires KeptFrom(info, clusters, k, |clusters| - 1)
    ensures AllWellFormed(clusters[..|clusters| - 1])
    ensures EntryOf(SavedAfterAll(info, clusters, saved), k) == EntryOf(SavedAfterAll(info, clusters[..|clusters| - 1], saved), k)
  {
    var n := |clusters| - 1;
    EntryAfterSleep(info, clusters[n], SavedAfterAll(info, clusters[..n], saved), k);
  }

  lemma KeptInPrefix(info: SleepInfo, clusters: seq<Cluster>, k: Key, last: nat)
    requires AllWellFormed(clusters) && last + 1 < |clusters|
    requires KeptFrom(info, clusters, k, last + 1)
    ensures var init := clusters[..|clusters| - 1];
            && AllWellFormed(init) && init[last] == clusters[last] && KeptFrom(info, init, k, last + 1)
    ensures KeptFrom(info, clusters, k, |clusters| - 1)
  {
    var init := clusters[..|clusters| - 1];
    assert forall i | 0 <= i < |init| :: init[i] == clusters[i];
  }

  /** The right original: over any sequence of Sleeps that each find objects of the target,
      the entry of an object is the reverse difference to the state it had just before the
      last Sleep that changed it, the one at index `last`; sleeping it again never overwrites that. */
  lemma {:induction false} LastChangeIsKept(info: SleepInfo, clusters: seq<Cluster>, saved: Saved, k: Key, last: nat, before: Cluster)
    requires ValidInfo(info) && AllWellFormed(clusters) && WellFormed(before)
    requires k.target in Targets(GetPatches(info)) && last < |clusters| && clusters[last] == before
    requires NewEntry(info, before, k).Some? && KeptFrom(info, clusters, k, last + 1)
    ensures EntryOf(SavedAfterAll(info, clusters, saved), k) == NewEntry(info, before, k)
    decreases |clusters|
  {
    var n := |clusters| - 1;
    if last == n {
      EntryAfterChange(info, clusters, before, saved, k);
    } else {
      KeptInPrefix(info, clusters, k, last);
      LastChangeIsKept(info, clusters[..n], saved, k, last, before);
      EntrySurvives(info, clusters, saved, k);
    }
  }

  /** A Sleep that finds no object of the target drops all its entries: the originals of
      whatever it had put to sleep are lost. */
  lemma EmptyListingDropsEntries(info: SleepInfo, c: Cluster, saved: Saved, k: Key)
    requires ValidInfo(info) && WellFormed(c) && k.target in Targets(GetPatches(info))
    requires ManagedKeys(info.filters, k.target, c) == {}
    ensures EntryOf(SavedAfterSleep(info, c, saved), k).None?
  {
    EntryAfterSleep(info, c, saved, k);
  }
}
