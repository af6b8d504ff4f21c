/** The managed resources of a SleepInfo as values: which objects it manages, and what one
    Sleep, one WakeUp, one save and one load do to all of them. */
module Resources {
  import opened JsonDocs
  import opened Patcher
  import opened ApiObjects
  import opened Selector
  import opened SleepDocs

  /** The objects of one namespace. */
  datatype Key = Key(target: PatchTarget, name: string)
  type Cluster = map<Key, Json>

  /** Restore patches by resource name. */
  type RestorePatches = map<string, Object>

  /** The text of a patch, parsed. */
  datatype PatchText = EmptyText | Malformed | Ops(ops: seq<Op>)

  datatype Patch = Patch(target: PatchTarget, text: PatchText)

  /** What is kept per target: the patch and the restore patches. */
  datatype Entry = Entry(text: PatchText, restore: RestorePatches)
  type Mapping = map<PatchTarget, Entry>

  /** Every object has its identifiers and is stored under its own name. */
  predicate WellFormed(c: Cluster)
  {
    forall k | k in c :: Identified(c[k]) && Name(c[k]) == k.name
  }

  function OpsOf(text: PatchText): seq<Op> {
    if text.Ops? then text.ops else []
  }

  predicate Managed(f: Filters, target: PatchTarget, c: Cluster, k: Key)
  {
    k in c && k.target == target && Selected(f, target, c[k])
  }

  function ManagedKeys(f: Filters, target: PatchTarget, c: Cluster): set<Key>
  {
    set k | k in c && Managed(f, target, c, k)
  }

  // ---------------------------------------------------------------- sleep and wake-up

  /** `base` and, for each key whose resource Sleep changes, the new restore patch. */
  function Saves(ops: seq<Op>, c: Cluster, target: PatchTarget, keys: set<Key>, base: RestorePatches): RestorePatches
    requires forall k | k in keys :: k in c && c[k].Obj? && k.target == target
  {
    base + (map k | k in keys && RestoreOf(ops, c[k]).Some? :: k.name := RestoreOf(ops, c[k]).value)
  }

  function SleepKeys(ops: seq<Op>, c: Cluster, keys: set<Key>): Cluster
    requires forall k | k in c :: c[k].Obj?
  {
    map k | k in c :: if k in keys then SleepDoc(ops, c[k]) else c[k]
  }

  function SavedFor(saved: RestorePatches, name: string): Option<Object> {
    if name in saved then Some(saved[name]) else None
  }

  function WakeKeys(ops: seq<Op>, saved: RestorePatches, c: Cluster, keys: set<Key>): Cluster
    requires forall k | k in c :: c[k].Obj?
  {
    map k | k in c :: if k in keys then WakeDoc(ops, SavedFor(saved, k.name), c[k]) else c[k]
  }

  predicate TargetSleepFails(f: Filters, target: PatchTarget, text: PatchText, c: Cluster)
    requires forall k | k in c :: c[k].Obj?
  {
    !text.Ops? || exists k | k in ManagedKeys(f, target, c) :: SleepEffectOn(text.ops, c[k]).Fail?
  }

  predicate TargetWakeFails(f: Filters, target: PatchTarget, e: Entry, c: Cluster)
    requires forall k | k in c :: c[k].Obj?
  {
    e.text.Malformed?
    || exists k | k in ManagedKeys(f, target, c) ::
         WakeEffectOn(OpsOf(e.text), SavedFor(e.restore, k.name), c[k]) == Refuse
  }

  predicate SleepFails(f: Filters, m: Mapping, c: Cluster)
    requires WellFormed(c)
  {
    exists t | t in m :: TargetSleepFails(f, t, m[t].text, c)
  }

  predicate WakeFails(f: Filters, m: Mapping, c: Cluster)
    requires WellFormed(c)
  {
    exists t | t in m :: TargetWakeFails(f, t, m[t], c)
  }

  function SleepAt(f: Filters, m: Mapping, c: Cluster, k: Key): Json
    requires k in c && c[k].Obj?
  {
    if k.target in m && Managed(f, k.target, c, k) then SleepDoc(OpsOf(m[k.target].text), c[k]) else c[k]
  }

  /** The cluster after a completed Sleep: every managed object of a mapped target slept,
      everything else untouched. */
  function SleepCluster(f: Filters, m: Mapping, c: Cluster): Cluster
    requires WellFormed(c)
  {
    map k | k in c :: SleepAt(f, m, c, k)
  }

  function SleepEntry(f: Filters, t: PatchTarget, e: Entry, c: Cluster): Entry
    requires WellFormed(c)
  {
    e.(restore := Saves(OpsOf(e.text), c, t, ManagedKeys(f, t, c), e.restore))
  }

  /** The mapping after a completed Sleep of the cluster `c`. */
  function SleepMapping(f: Filters, m: Mapping, c: Cluster): Mapping
    requires WellFormed(c)
  {
    map t | t in m :: SleepEntry(f, t, m[t], c)
  }

  function WakeAt(f: Filters, m: Mapping, c: Cluster, k: Key): Json
    requires k in c && c[k].Obj?
  {
    if k.target in m && Managed(f, k.target, c, k)
    then WakeDoc(OpsOf(m[k.target].text), SavedFor(m[k.target].restore, k.name), c[k])
    else c[k]
  }

  function WakeCluster(f: Filters, m: Mapping, c: Cluster): Cluster
    requires WellFormed(c)
  {
    map k | k in c :: WakeAt(f, m, c, k)
  }

  // ---------------------------------------------------------------- one resource at a time

  lemma SleepKeepsIdentity(ops: seq<Op>, doc: Json)
    requires Identified(doc)
    ensures Identified(SleepDoc(ops, doc)) && Name(SleepDoc(ops, doc)) == Name(doc)
    ensures SleepEffectOn(ops, doc).Change? ==> Name(Obj(SleepEffectOn(ops, doc).sparse)) == Name(doc)
  {
    if SleepEffectOn(ops, doc).Change? {
      var changes := Diff(doc, Exec(ops, doc).value);
      SparseName(doc, changes);
      SparseKeepsIdentity(doc, doc, changes);
    }
  }

  lemma WakeKeepsIdentity(ops: seq<Op>, saved: Option<Object>, doc: Json)
    requires Identified(doc)
    ensures Identified(WakeDoc(ops, saved, doc)) && Name(WakeDoc(ops, saved, doc)) == Name(doc)
    ensures WakeEffectOn(ops, saved, doc).Push? ==>
              WakeEffectOn(ops, saved, doc).restored.Obj? && SameIdentifiers(doc, WakeEffectOn(ops, saved, doc).restored)
  {
    if WakeEffectOn(ops, saved, doc).Push? {
      var restored := Merge(doc, Obj(saved.value));
      MergedDocumentPushesExactly(doc, Obj(saved.value));
      SameIdentifiersIdentified(doc, restored);
    }
  }

  lemma SleepClusterWellFormed(f: Filters, m: Mapping, c: Cluster)
    requires WellFormed(c)
    ensures WellFormed(SleepCluster(f, m, c))
  {
    forall k | k in c ensures Identified(SleepAt(f, m, c, k)) && Name(SleepAt(f, m, c, k)) == k.name {
      if k.target in m { SleepKeepsIdentity(OpsOf(m[k.target].text), c[k]); }
    }
  }

  lemma SleepKeysWellFormed(ops: seq<Op>, c: Cluster, keys: set<Key>)
    requires WellFormed(c)
    ensures WellFormed(SleepKeys(ops, c, keys))
  {
    forall k | k in c ensures Identified(SleepKeys(ops, c, keys)[k]) && Name(SleepKeys(ops, c, keys)[k]) == k.name {
      SleepKeepsIdentity(ops, c[k]);
    }
  }

  lemma WakeKeysWellFormed(ops: seq<Op>, saved: RestorePatches, c: Cluster, keys: set<Key>)
    requires WellFormed(c)
    ensures WellFormed(WakeKeys(ops, saved, c, keys))
  {
    forall k | k in c ensures Identified(WakeKeys(ops, saved, c, keys)[k]) && Name(WakeKeys(ops, saved, c, keys)[k]) == k.name {
      WakeKeepsIdentity(ops, SavedFor(saved, k.name), c[k]);
    }
  }

  lemma SleepKeysWith(ops: seq<Op>, c: Cluster, done: set<Key>, k: Key)
    requires WellFormed(c) && k in c && k !in done
    ensures SleepKeys(ops, c, done + {k}) == SleepKeys(ops, c, done)[k := SleepDoc(ops, c[k])]
    ensures k in SleepKeys(ops, c, done) && SleepKeys(ops, c, done)[k] == c[k]
  {
  }

  /** Sleeping one more resource. */
  lemma SleepKeysStep(ops: seq<Op>, c: Cluster, done: set<Key>, k: Key)
    requires WellFormed(c) && k in c && k !in done
    ensures var before, after := SleepKeys(ops, c, done), SleepKeys(ops, c, done + {k});
            match SleepEffectOn(ops, c[k])
            case Change(_, sparse) => Name(Obj(sparse)) == k.name && after == before[k := Merge(before[k], Obj(sparse))]
            case _ => after == before
  {
    SleepKeepsIdentity(ops, c[k]);
    SleepKeysWith(ops, c, done, k);
  }

  /** What is saved under a name. */
  lemma SavesAt(ops: seq<Op>, c: Cluster, t: PatchTarget, keys: set<Key>, base: RestorePatches, n: string)
    requires forall k | k in keys :: k in c && c[k].Obj? && k.target == t
    ensures SavedFor(Saves(ops, c, t, keys, base), n) ==
            if Key(t, n) in keys && RestoreOf(ops, c[Key(t, n)]).Some? then RestoreOf(ops, c[Key(t, n)]) else SavedFor(base, n)
  {
    assert forall k | k in keys && k.name == n :: k == Key(t, n);
  }

  lemma SameRestorePatches(a: RestorePatches, b: RestorePatches)
    requires forall n :: SavedFor(a, n) == SavedFor(b, n)
    ensures a == b
  {
    forall n ensures n in a <==> n in b { assert SavedFor(a, n) == SavedFor(b, n); }
    forall n | n in a ensures a[n] == b[n] { assert SavedFor(a, n) == SavedFor(b, n); }
  }

  lemma SavesStep(ops: seq<Op>, c: Cluster, t: PatchTarget, done: set<Key>, k: Key, base: RestorePatches)
    requires k in c && k.target == t && c[k].Obj? && k !in done
    requires forall q | q in done :: q in c && c[q].Obj? && q.target == t
    ensures Saves(ops, c, t, done + {k}, base) ==
            if RestoreOf(ops, c[k]).Some? then Saves(ops, c, t, done, base)[k.name := RestoreOf(ops, c[k]).value]
            else Saves(ops, c, t, done, base)
  {
    var before, after := Saves(ops, c, t, done, base), Saves(ops, c, t, done + {k}, base);
    var expected := if RestoreOf(ops, c[k]).Some? then before[k.name := RestoreOf(ops, c[k]).value] else before;
    forall n ensures SavedFor(after, n) == SavedFor(expected, n) {
      SavesAt(ops, c, t, done, base, n);
      SavesAt(ops, c, t, done + {k}, base, n);
      assert Key(t, n) == k <==> n == k.name;
    }
    SameRestorePatches(after, expected);
  }

  lemma WakeKeysWith(ops: seq<Op>, saved: RestorePatches, c: Cluster, done: set<Key>, k: Key)
    requires WellFormed(c) && k in c && k !in done
    ensures WakeKeys(ops, saved, c, done + {k}) == WakeKeys(ops, saved, c, done)[k := WakeDoc(ops, SavedFor(saved, k.name), c[k])]
    ensures k in WakeKeys(ops, saved, c, done) && WakeKeys(ops, saved, c, done)[k] == c[k]
  {
  }

  /** Waking one more resource. */
  lemma WakeKeysStep(ops: seq<Op>, saved: RestorePatches, c: Cluster, done: set<Key>, k: Key)
    requires WellFormed(c) && k in c && k !in done
    ensures var before, after := WakeKeys(ops, saved, c, done), WakeKeys(ops, saved, c, done + {k});
            match WakeEffectOn(ops, SavedFor(saved, k.name), c[k])
            case Push(restored) =>
              restored.Obj? && SameIdentifiers(c[k], restored) && after == before[k := Merge(before[k], Obj(Diff(c[k], restored)))]
            case _ => after == before
  {
    WakeKeepsIdentity(ops, SavedFor(saved, k.name), c[k]);
    WakeKeysWith(ops, saved, c, done, k);
  }

  // ---------------------------------------------------------------- the mapping

  /** The patch in force for a target: the last one given. */
  function PatchFor(patches: seq<Patch>, t: PatchTarget): Option<PatchText>
  {
    if patches == [] then None
    else if patches[|patches| - 1].target == t then Some(patches[|patches| - 1].text)
    else PatchFor(patches[..|patches| - 1], t)
  }

  function Targets(patches: seq<Patch>): set<PatchTarget>
  {
    set i | 0 <= i < |patches| :: patches[i].target
  }

  lemma TargetsSnoc(patches: seq<Patch>, t: PatchTarget)
    requires patches != []
    ensures t in Targets(patches) <==> t in Targets(patches[..|patches| - 1]) || t == patches[|patches| - 1].target
  {
    var init := patches[..|patches| - 1];
    if i :| 0 <= i < |init| && init[i].target == t { assert patches[i].target == t; }
    if i :| 0 <= i < |patches| - 1 && patches[i].target == t { assert init[i].target == t; }
    assert patches[|patches| - 1].target in Targets(patches);
  }

  /** The patch at `i` is the last one for its target. */
  predicate IsLast(patches: seq<Patch>, i: int, t: PatchTarget)
  {
    0 <= i < |patches| && patches[i].target == t && forall j | i < j < |patches| :: patches[j].target != t
  }

  lemma LastStays(patches: seq<Patch>, i: int, t: PatchTarget)
    requires patches != [] && patches[|patches| - 1].target != t && IsLast(patches[..|patches| - 1], i, t)
    ensures IsLast(patches, i, t) && patches[i] == patches[..|patches| - 1][i]
  {
    var init := patches[..|patches| - 1];
    forall j | i < j < |patches| ensures patches[j].target != t {
      if j < |init| { assert patches[j] == init[j]; }
    }
  }

  lemma {:induction false} PatchForIsLast(patches: seq<Patch>, t: PatchTarget)
    ensures PatchFor(patches, t).Some? <==> t in Targets(patches)
    ensures PatchFor(patches, t).Some? ==> exists i :: IsLast(patches, i, t) && patches[i] == Patch(t, PatchFor(patches, t).value)
  {
    if patches != [] {
      var n := |patches| - 1;
      var init := patches[..n];
      PatchForIsLast(init, t);
      TargetsSnoc(patches, t);
      if patches[n].target == t {
        assert IsLast(patches, n, t) && patches[n] == Patch(t, PatchFor(patches, t).value);
      } else if PatchFor(init, t).Some? {
        var i :| IsLast(init, i, t) && init[i] == Patch(t, PatchFor(init, t).value);
        LastStays(patches, i, t);
        assert IsLast(patches, i, t) && patches[i] == Patch(t, PatchFor(patches, t).value);
      }
    }
  }

  /** Of two lists of patches the second decides, where it says anything. */
  lemma {:induction false} PatchForAppend(a: seq<Patch>, b: seq<Patch>, t: PatchTarget)
    ensures PatchFor(a + b, t) == if PatchFor(b, t).Some? then PatchFor(b, t) else PatchFor(a, t)
    decreases |b|
  {
    if b == [] {
      assert a + b == a;
    } else {
      var all, init := a + b, b[..|b| - 1];
      assert all[..|all| - 1] == a + init && all[|all| - 1] == b[|b| - 1];
      PatchForAppend(a, init, t);
    }
  }

  /** The key of a target in the saved data. */
  function TargetString(t: PatchTarget): string { t.kind + "." + t.group }

  function LoadFor(saved: map<string, RestorePatches>, t: PatchTarget): RestorePatches {
    if TargetString(t) in saved then saved[TargetString(t)] else map[]
  }

  /** The mapping NewResources builds: targets with at least one managed object. */
  function NewMapping(patches: seq<Patch>, f: Filters, c: Cluster, saved: map<string, RestorePatches>): Mapping
  {
    map t | t in Targets(patches) && PatchFor(patches, t).Some? && ManagedKeys(f, t, c) != {} ::
      Entry(PatchFor(patches, t).value, LoadFor(saved, t))
  }

  // ---------------------------------------------------------------- what makes an operation fail

  /** With patches that keep metadata, a Sleep fails exactly when the text of some mapped
      target is empty or does not parse. */
  lemma SleepFailsIff(f: Filters, m: Mapping, c: Cluster)
    requires WellFormed(c) && forall t | t in m && m[t].text.Ops? :: KeepsMetadata(m[t].text.ops)
    ensures SleepFails(f, m, c) <==> exists t | t in m :: !m[t].text.Ops?
  {
    forall t | t in m ensures TargetSleepFails(f, t, m[t].text, c) <==> !m[t].text.Ops? {
      if m[t].text.Ops? {
        forall k | k in ManagedKeys(f, t, c) ensures !SleepEffectOn(m[t].text.ops, c[k]).Fail? {
          KeptMetadataDoesNotFail(m[t].text.ops, c[k]);
        }
      }
    }
  }

  /** The patch in force for a target is empty or does not parse, and it has an object to
      work on. */
  predicate FailsOn(patches: seq<Patch>, f: Filters, c: Cluster, t: PatchTarget)
  {
    PatchFor(patches, t).Some? && !PatchFor(patches, t).value.Ops? && ManagedKeys(f, t, c) != {}
  }

  lemma FailsOnIff(patches: seq<Patch>, f: Filters, c: Cluster, saved: map<string, RestorePatches>, t: PatchTarget)
    ensures var m := NewMapping(patches, f, c, saved);
            (t in m && !m[t].text.Ops?) <==> t in Targets(patches) && FailsOn(patches, f, c, t)
  {
  }

  /** So, for given patches: a Sleep fails exactly when it fails on some target. */
  lemma BadTextFailsIff(patches: seq<Patch>, f: Filters, c: Cluster, saved: map<string, RestorePatches>)
    requires WellFormed(c) && forall i | 0 <= i < |patches| && patches[i].text.Ops? :: KeepsMetadata(patches[i].text.ops)
    ensures SleepFails(f, NewMapping(patches, f, c, saved), c) <==> exists t | t in Targets(patches) :: FailsOn(patches, f, c, t)
  {
    var m := NewMapping(patches, f, c, saved);
    forall t | t in m && m[t].text.Ops? ensures KeepsMetadata(m[t].text.ops) {
      PatchForIsLast(patches, t);
    }
    SleepFailsIff(f, m, c);
    forall t ensures (t in m && !m[t].text.Ops?) <==> t in Targets(patches) && FailsOn(patches, f, c, t) {
      FailsOnIff(patches, f, c, saved, t);
    }
  }

  /** A wake-up accepts an empty text: its target is refused exactly when some restore patch
      would change what an object is identified by, and never without restore patches. */
  lemma EmptyTextWakesIff(f: Filters, t: PatchTarget, restore: RestorePatches, c: Cluster)
    requires WellFormed(c)
    ensures TargetWakeFails(f, t, Entry(EmptyText, restore), c) <==>
            exists k | k in ManagedKeys(f, t, c) :: k.name in restore && !SameIdentifiers(c[k], Merge(c[k], Obj(restore[k.name])))
    ensures restore == map[] ==> !TargetWakeFails(f, t, Entry(EmptyText, restore), c)
  {
    forall k | k in ManagedKeys(f, t, c)
      ensures WakeEffectOn([], SavedFor(restore, k.name), c[k]) == Refuse <==>
              k.name in restore && !SameIdentifiers(c[k], Merge(c[k], Obj(restore[k.name])))
    {
      assert Exec([], c[k]) == Ok(c[k]);
    }
  }

  const LONE_TARGET: PatchTarget := PatchTarget("apps", "Deployment")
  const LONE_OBJECT: Json :=
    Obj(map["apiVersion" := Str("apps/v1"), "kind" := Str("Deployment"),
            "metadata" := Obj(map["name" := Str("web"), "namespace" := Str("default")])])
  const LONE_CLUSTER: Cluster := map[Key(LONE_TARGET, "web") := LONE_OBJECT]

  /** An empty text over a namespace with one Deployment: Sleep fails, WakeUp does not. */
  lemma EmptyTextFailsSleep()
    ensures var f, patches := Filters([], []), [Patch(LONE_TARGET, EmptyText)];
            var m := NewMapping(patches, f, LONE_CLUSTER, map[]);
            && WellFormed(LONE_CLUSTER)
            && SleepFails(f, m, LONE_CLUSTER) && !WakeFails(f, m, LONE_CLUSTER)
  {
    var f, patches := Filters([], []), [Patch(LONE_TARGET, EmptyText)];
    Lookup1(LONE_OBJECT, "apiVersion");
    Lookup1(LONE_OBJECT, "kind");
    Lookup2(LONE_OBJECT, "metadata", "name");
    Lookup2(LONE_OBJECT, "metadata", "namespace");
    Lookup1(LONE_OBJECT.members["metadata"], "name");
    Lookup1(LONE_OBJECT.members["metadata"], "namespace");
    var m := NewMapping(patches, f, LONE_CLUSTER, map[]);
    PatchForIsLast(patches, LONE_TARGET);
    assert patches[0].target == LONE_TARGET;
    assert Key(LONE_TARGET, "web") in ManagedKeys(f, LONE_TARGET, LONE_CLUSTER);
    BadTextFailsIff(patches, f, LONE_CLUSTER, map[]);
    assert FailsOn(patches, f, LONE_CLUSTER, LONE_TARGET);
    forall t | t in m ensures !TargetWakeFails(f, t, m[t], LONE_CLUSTER) {
      EmptyTextWakesIff(f, t, map[], LONE_CLUSTER);
    }
  }

  // ---------------------------------------------------------------- save and load

  predicate DotFree(kind: string) { '.' !in kind }

  lemma {:induction false} TargetStringInjective(a: PatchTarget, b: PatchTarget)
    requires DotFree(a.kind) && DotFree(b.kind) && TargetString(a) == TargetString(b)
    ensures a == b
  {
    var s := TargetString(a);
    assert s == a.kind + ("." + a.group) == b.kind + ("." + b.group);
    assert s[|a.kind|] == '.' && s[|b.kind|] == '.';
    assert a.kind == s[..|a.kind|] && b.kind == s[..|b.kind|];
    assert a.group == s[|a.kind| + 1..] && b.group == s[|b.kind| + 1..];
  }

  /** With dots in kinds two targets can share one key. */
  lemma DottedKindsCollide()
    ensures var a, b := PatchTarget("b.c", "A"), PatchTarget("c", "A.b");
            a != b && TargetString(a) == TargetString(b)
  {
    assert "A" + "." + "b.c" == "A.b" + "." + "c";
    assert "b.c" != "c" by { assert |"b.c"| == 3 && |"c"| == 1; }
  }

  /** What is written to the Secret: restore patches by target key, empty ones dropped. */
  ghost predicate IsSaveOf(saved: map<string, RestorePatches>, m: Mapping)
  {
    && (forall t | t in m && m[t].restore != map[] :: TargetString(t) in saved)
    && (forall s | s in saved ::
          exists t :: t in m && TargetString(t) == s && m[t].restore != map[] && saved[s] == m[t].restore)
  }

  ghost predicate AllDotFree(m: Mapping) { forall t | t in m :: DotFree(t.kind) }

  /** Saved and loaded again, every target gets its own restore patches back. */
  lemma SaveThenLoad(saved: map<string, RestorePatches>, m: Mapping, t: PatchTarget)
    requires IsSaveOf(saved, m) && AllDotFree(m) && t in m
    ensures LoadFor(saved, t) == m[t].restore
  {
    var s := TargetString(t);
    if s in saved {
      var t' :| t' in m && TargetString(t') == s && m[t'].restore != map[] && saved[s] == m[t'].restore;
      TargetStringInjective(t, t');
    }
  }

  /** There is only one way to save. */
  lemma SaveIsUnique(a: map<string, RestorePatches>, b: map<string, RestorePatches>, m: Mapping)
    requires IsSaveOf(a, m) && IsSaveOf(b, m) && AllDotFree(m)
    ensures a == b
  {
    forall s ensures s in a <==> s in b {}
    forall s | s in a ensures a[s] == b[s] {
      var t :| t in m && TargetString(t) == s && m[t].restore != map[] && a[s] == m[t].restore;
      SaveThenLoad(a, m, t);
      SaveThenLoad(b, m, t);
    }
  }
}
