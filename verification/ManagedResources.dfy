/** The managed resources as the controller holds them: objects with a cached list per
    target, updated in place while the cluster is written. */
module ManagedResources {
  import opened JsonDocs
  import opened Patcher
  import opened ApiObjects
  import opened Selector
  import opened SleepDocs
  import opened Resources

  function KeysOf(t: PatchTarget, c: Cluster): set<Key> {
    set k | k in c && k.target == t
  }

  /** The objects of a target the server selectors match. */
  function ServerKeys(f: Filters, t: PatchTarget, c: Cluster): set<Key> {
    set k | k in c && k.target == t && ServerSelected(f, t, c[k])
  }

  /** For no target do more objects match than one list call returns. */
  ghost predicate Fits(f: Filters, targets: set<PatchTarget>, c: Cluster) {
    forall t | t in targets :: |ServerKeys(f, t, c)| <= LIMIT
  }

  /** Work on managed objects never makes more objects match. */
  lemma FitsKept(f: Filters, targets: set<PatchTarget>, c: Cluster, c': Cluster)
    requires Fits(f, targets, c) && c'.Keys == c.Keys
    requires forall k | k in c && !Managed(f, k.target, c, k) :: c'[k] == c[k]
    ensures Fits(f, targets, c')
  {
    forall t | t in targets ensures |ServerKeys(f, t, c')| <= LIMIT {
      forall k | k in ServerKeys(f, t, c') ensures k in ServerKeys(f, t, c) {
        if Managed(f, t, c, k) { SelectedIsServerSelected(f, t, c[k]); }
      }
      SubsetIsSmaller(ServerKeys(f, t, c'), ServerKeys(f, t, c));
    }
  }

  lemma SubsetIsSmaller(a: set<Key>, b: set<Key>)
    requires a <= b
    ensures |a| <= |b|
  {
    assert b == a + (b - a);
  }

  predicate DistinctNames(ds: seq<Json>) {
    forall i, j | 0 <= i < j < |ds| :: Name(ds[i]) != Name(ds[j])
  }

  /** The sequence holds exactly the objects of the given keys, once each. */
  ghost predicate Lists(ds: seq<Json>, keys: set<Key>, t: PatchTarget, c: Cluster)
  {
    && (forall d | d in ds :: Key(t, Name(d)) in keys && Key(t, Name(d)) in c && c[Key(t, Name(d))] == d)
    && (forall k | k in keys :: k in c && k.target == t && c[k] in ds)
    && DistinctNames(ds)
  }

  lemma ListsSnoc(ds: seq<Json>, keys: set<Key>, t: PatchTarget, c: Cluster, k: Key)
    requires Lists(ds, keys, t, c) && k !in keys
    requires k in c && k.target == t && Name(c[k]) == k.name
    ensures Lists(ds + [c[k]], keys + {k}, t, c)
  {
    var all := ds + [c[k]];
    assert forall d :: d in all <==> d in ds || d == c[k];
    assert k == Key(t, Name(c[k]));
    forall i, j | 0 <= i < j < |all| ensures Name(all[i]) != Name(all[j]) {
      assert all[i] in ds;
      if j < |ds| { assert all[i] == ds[i] && all[j] == ds[j]; }
    }
  }

  /** A fresh listing of the managed objects of a target. */
  ghost predicate IsListing(ds: seq<Json>, f: Filters, t: PatchTarget, c: Cluster)
  {
    Lists(ds, ManagedKeys(f, t, c), t, c)
  }

  /** Distinct names, one item less. */
  lemma LastNameIsNew(items: seq<Json>)
    requires items != [] && DistinctNames(items)
    ensures var init := items[..|items| - 1];
            DistinctNames(init) && forall d | d in init :: Name(d) != Name(items[|items| - 1])
  {
    var init := items[..|items| - 1];
    assert forall i | 0 <= i < |init| :: init[i] == items[i];
  }

  lemma {:induction false} SelectedOfMembers(items: seq<Json>, f: Filters, t: PatchTarget)
    ensures forall d :: d in SelectedOf(items, f, t) <==> d in items && Selected(f, t, d)
  {
    if items != [] {
      var init, last := items[..|items| - 1], items[|items| - 1];
      SelectedOfMembers(init, f, t);
      assert items == init + [last];
    }
  }

  lemma {:induction false} SelectedOfDistinct(items: seq<Json>, f: Filters, t: PatchTarget)
    requires DistinctNames(items)
    ensures DistinctNames(SelectedOf(items, f, t))
  {
    if items != [] {
      var init := items[..|items| - 1];
      LastNameIsNew(items);
      SelectedOfDistinct(init, f, t);
      SelectedOfMembers(init, f, t);
    }
  }

  lemma {:induction false} ServerSelectedOfMembers(items: seq<Json>, f: Filters, t: PatchTarget)
    ensures forall d | d in ServerSelectedOf(items, f, t) :: d in items && ServerSelected(f, t, d)
    ensures DistinctNames(items) ==> DistinctNames(ServerSelectedOf(items, f, t))
  {
    if items != [] {
      var init, last := items[..|items| - 1], items[|items| - 1];
      ServerSelectedOfMembers(init, f, t);
      if DistinctNames(items) { LastNameIsNew(items); }
    }
  }

  lemma {:induction false} DistinctKeys(t: PatchTarget, ds: seq<Json>, n: nat)
    requires n <= |ds| && DistinctNames(ds)
    ensures |KeysUpTo(t, ds, n)| == n
  {
    if n > 0 {
      DistinctKeys(t, ds, n - 1);
      KeysUpToStep(t, ds, n - 1);
    }
  }

  /** The server returns no more items than there are matching objects. */
  lemma ServedAtMost(items: seq<Json>, f: Filters, t: PatchTarget, c: Cluster)
    requires Lists(items, KeysOf(t, c), t, c)
    ensures |ServerSelectedOf(items, f, t)| <= |ServerKeys(f, t, c)|
  {
    var served := ServerSelectedOf(items, f, t);
    ServerSelectedOfMembers(items, f, t);
    DistinctKeys(t, served, |served|);
    forall k | k in KeysUpTo(t, served, |served|) ensures k in ServerKeys(f, t, c) {
      var i :| 0 <= i < |served| && k == Key(t, Name(served[i]));
      assert served[i] in served;
    }
    SubsetIsSmaller(KeysUpTo(t, served, |served|), ServerKeys(f, t, c));
  }

  lemma SelectedOfLists(items: seq<Json>, f: Filters, t: PatchTarget, c: Cluster)
    requires Lists(items, KeysOf(t, c), t, c)
    ensures IsListing(SelectedOf(items, f, t), f, t, c)
  {
    SelectedOfMembers(items, f, t);
    SelectedOfDistinct(items, f, t);
  }

  /** A listing depends only on the objects of its own kind. */
  lemma ListingFrame(ds: seq<Json>, f: Filters, t: PatchTarget, c: Cluster, c': Cluster)
    requires IsListing(ds, f, t, c)
    requires forall k: Key | k.target == t :: (k in c <==> k in c') && (k in c ==> c[k] == c'[k])
    ensures IsListing(ds, f, t, c')
  {
    assert ManagedKeys(f, t, c) == ManagedKeys(f, t, c');
  }

  /** The server: it stores the objects, lists them, merges what is applied to them. */
  class ApiServer {
    var objects: Cluster

    constructor (objects: Cluster)
      ensures this.objects == objects
    {
      this.objects := objects;
    }

    /** All objects of a kind, in any order. */
    method ObjectsOf(t: PatchTarget) returns (items: seq<Json>)
      requires WellFormed(objects)
      ensures Lists(items, KeysOf(t, objects), t, objects)
      ensures |items| == |KeysOf(t, objects)|
    {
      items := [];
      var all := KeysOf(t, objects);
      var todo := all;
      while todo != {}
        invariant todo <= all
        invariant Lists(items, all - todo, t, objects)
        invariant |items| + |todo| == |all|
        decreases |todo|
      {
        var k :| k in todo;
        assert k.target == t && Name(objects[k]) == k.name;
        ListsSnoc(items, all - todo, t, objects, k);
        assert (all - todo) + {k} == all - (todo - {k});
        items := items + [objects[k]];
        todo := todo - {k};
      }
      assert all - todo == all;
    }

    /** The managed objects of a target, through the server selectors and the limit. */
    method List(f: Filters, t: PatchTarget) returns (ds: seq<Json>)
      requires WellFormed(objects) && |ServerKeys(f, t, objects)| <= LIMIT
      ensures IsListing(ds, f, t, objects)
    {
      var items := ObjectsOf(t);
      ds := GetListByNamespace(items, f, t);
      ServedAtMost(items, f, t, objects);
      ListingIsCompleteIff(items, f, t);
      SelectedOfLists(items, f, t, objects);
    }

    /** Server-side apply of a sparse object; an object that is gone is no error. */
    method Apply(t: PatchTarget, sparse: Object) returns (ok: bool)
      modifies this
      ensures ok <==> Name(Obj(sparse)) != ""
      ensures var k := Key(t, Name(Obj(sparse)));
              objects == if ok && k in old(objects) then old(objects)[k := Merge(old(objects)[k], Obj(sparse))] else old(objects)
    {
      var k := Key(t, Name(Obj(sparse)));
      ok := k.name != "";
      if ok && k in objects {
        objects := objects[k := Merge(objects[k], Obj(sparse))];
      }
    }

    /** A merge patch of the difference between two versions of an object. */
    method Patch(t: PatchTarget, oldDoc: Json, newDoc: Json) returns (ok: bool)
      requires oldDoc.Obj? && newDoc.Obj?
      modifies this
      ensures ok <==> SameIdentifiers(oldDoc, newDoc)
      ensures var k := Key(t, Name(oldDoc));
              objects == if ok && k in old(objects)
                         then old(objects)[k := Merge(old(objects)[k], Obj(Diff(oldDoc, newDoc)))] else old(objects)
    {
      var k := Key(t, Name(oldDoc));
      ok := SameIdentifiers(oldDoc, newDoc);
      if ok && k in objects {
        objects := objects[k := Merge(objects[k], Obj(Diff(oldDoc, newDoc)))];
      }
    }
  }

  /** The keys of the first `n` listed objects. */
  ghost function KeysUpTo(t: PatchTarget, ds: seq<Json>, n: nat): set<Key>
    requires n <= |ds|
  {
    set i | 0 <= i < n :: Key(t, Name(ds[i]))
  }

  lemma KeysUpToStep(t: PatchTarget, ds: seq<Json>, n: nat)
    requires n < |ds| && DistinctNames(ds)
    ensures KeysUpTo(t, ds, n + 1) == KeysUpTo(t, ds, n) + {Key(t, Name(ds[n]))}
    ensures Key(t, Name(ds[n])) !in KeysUpTo(t, ds, n)
  {
  }

  lemma ListingKeys(ds: seq<Json>, f: Filters, t: PatchTarget, c: Cluster)
    requires IsListing(ds, f, t, c) && WellFormed(c)
    ensures KeysUpTo(t, ds, |ds|) == ManagedKeys(f, t, c)
    ensures forall i | 0 <= i < |ds| :: Key(t, Name(ds[i])) in c && c[Key(t, Name(ds[i]))] == ds[i] && ds[i] in ds
  {
    forall k | k in ManagedKeys(f, t, c) ensures k in KeysUpTo(t, ds, |ds|) {
      var i :| 0 <= i < |ds| && ds[i] == c[k];
      assert k == Key(t, Name(ds[i]));
    }
    forall k | k in KeysUpTo(t, ds, |ds|) ensures k in ManagedKeys(f, t, c) {
      var i :| 0 <= i < |ds| && k == Key(t, Name(ds[i]));
      assert ds[i] in ds;
    }
  }

  /** The cluster and the restore patches after sleeping the resources `done` of a target. */
  ghost predicate Slept(ops: seq<Op>, t: PatchTarget, c: Cluster, base: RestorePatches,
                        objects: Cluster, restore: RestorePatches, done: set<Key>)
  {
    && (forall k | k in c :: c[k].Obj?)
    && (forall k | k in done :: k in c && k.target == t)
    && objects == SleepKeys(ops, c, done)
    && restore == Saves(ops, c, t, done, base)
  }

  lemma NothingSlept(ops: seq<Op>, t: PatchTarget, c: Cluster, base: RestorePatches)
    requires WellFormed(c)
    ensures Slept(ops, t, c, base, c, base, {})
  {
    assert SleepKeys(ops, c, {}) == c;
    assert Saves(ops, c, t, {}, base) == base;
  }

  /** The sleep of one resource up to the write: patch it, compute both merge patches, build
      the sparse object. */
  method PatchResource(ops: seq<Op>, resource: Json) returns (effect: SleepEffect)
    requires resource.Obj?
    ensures effect == SleepEffectOn(ops, resource)
  {
    if IsControlled(resource) {
      return Skip;
    }
    var result := Exec(ops, resource);
    if result.Err? {
      return Skip;
    }
    var modified := result.value;
    if !modified.Obj? {
      return Fail(None);
    }
    var restorePatch := Diff(modified, resource);
    if restorePatch == map[] {
      return Skip;
    }
    var sparse := BuildSparseApplyObject(resource, Diff(resource, modified));
    effect := if Name(Obj(sparse)) == "" then Fail(Some(restorePatch)) else Change(restorePatch, sparse);
  }

  /** One target: its patch, its restore patches and the cached list of its objects. */
  class GenericResource {
    const target: PatchTarget
    const text: PatchText
    var restorePatches: RestorePatches
    var data: seq<Json>
    var isCacheInvalid: bool

    constructor (target: PatchTarget, text: PatchText, restorePatches: RestorePatches, data: seq<Json>)
      ensures this.target == target && this.text == text && this.restorePatches == restorePatches
      ensures this.data == data && !isCacheInvalid
    {
      this.target := target;
      this.text := text;
      this.restorePatches := restorePatches;
      this.data := data;
      this.isCacheInvalid := false;
    }

    /** Puts one listed object to sleep. */
    method SleepItem(server: ApiServer, resource: Json, ghost c: Cluster, ghost base: RestorePatches, ghost done: set<Key>)
      returns (err: bool)
      requires text.Ops? && WellFormed(c) && Slept(text.ops, target, c, base, server.objects, restorePatches, done)
      requires var k := Key(target, Name(resource)); k in c && c[k] == resource && k !in done
      modifies server, this`restorePatches, this`isCacheInvalid
      ensures err <==> SleepEffectOn(text.ops, resource).Fail?
      ensures err ==> server.objects == old(server.objects)
      ensures err ==> var kept := SleepEffectOn(text.ops, resource).kept;
                restorePatches == if kept.Some? then old(restorePatches)[Name(resource) := kept.value] else old(restorePatches)
      ensures !err ==> Slept(text.ops, target, c, base, server.objects, restorePatches, done + {Key(target, Name(resource))})
      ensures !isCacheInvalid ==> !old(isCacheInvalid) && server.objects == old(server.objects)
    {
      ghost var k := Key(target, Name(resource));
      SleepKeysStep(text.ops, c, done, k);
      SavesStep(text.ops, c, target, done, k, base);
      var effect := PatchResource(text.ops, resource);
      err := effect.Fail?;
      if effect.Change? {
        restorePatches := restorePatches[Name(resource) := effect.restore];
        var ok := server.Apply(target, effect.sparse);
        isCacheInvalid := true;
      } else if err && effect.kept.Some? {
        restorePatches := restorePatches[Name(resource) := effect.kept.value];
      }
    }

    /** Puts the listed objects to sleep one after the other; `done` is how far it got. */
    method SleepItems(server: ApiServer, ghost f: Filters) returns (err: bool, ghost done: set<Key>)
      requires text.Ops? && WellFormed(server.objects) && IsListing(data, f, target, server.objects)
      modifies server, this`restorePatches, this`isCacheInvalid
      ensures done <= ManagedKeys(f, target, old(server.objects))
      ensures server.objects == SleepKeys(text.ops, old(server.objects), done)
      ensures !err ==> done == ManagedKeys(f, target, old(server.objects))
      ensures !err ==> Slept(text.ops, target, old(server.objects), old(restorePatches), server.objects, restorePatches, done)
      ensures err <==> TargetSleepFails(f, target, text, old(server.objects))
      ensures !isCacheInvalid ==> !old(isCacheInvalid) && server.objects == old(server.objects)
    {
      ghost var c := server.objects;
      ghost var base := restorePatches;
      ListingKeys(data, f, target, c);
      NothingSlept(text.ops, target, c, base);
      done := {};
      var i := 0;
      while i < |data|
        invariant 0 <= i <= |data|
        invariant done == KeysUpTo(target, data, i) && done <= ManagedKeys(f, target, c)
        invariant Slept(text.ops, target, c, base, server.objects, restorePatches, done)
        invariant forall k | k in done :: !SleepEffectOn(text.ops, c[k]).Fail?
        invariant !isCacheInvalid ==> !old(isCacheInvalid) && server.objects == c
      {
        KeysUpToStep(target, data, i);
        ghost var k := Key(target, Name(data[i]));
        assert k in KeysUpTo(target, data, |data|) && c[k] == data[i];
        err := SleepItem(server, data[i], c, base, done);
        if err {
          assert k in ManagedKeys(f, target, c) && SleepEffectOn(text.ops, c[k]).Fail?;
          return;
        }
        done := done + {k};
        i := i + 1;
      }
      err := false;
    }

    /** Wakes one listed object. */
    method WakeItem(server: ApiServer, resource: Json, ghost c: Cluster, ghost done: set<Key>) returns (err: bool)
      requires !text.Malformed? && WellFormed(c) && server.objects == WakeKeys(OpsOf(text), restorePatches, c, done)
      requires var k := Key(target, Name(resource)); k in c && c[k] == resource && k !in done
      modifies server, this`isCacheInvalid
      ensures err <==> WakeEffectOn(OpsOf(text), SavedFor(restorePatches, Name(resource)), resource) == Refuse
      ensures err ==> server.objects == old(server.objects)
      ensures !err ==> server.objects == WakeKeys(OpsOf(text), restorePatches, c, done + {Key(target, Name(resource))})
      ensures !isCacheInvalid ==> !old(isCacheInvalid) && server.objects == old(server.objects)
    {
      ghost var k := Key(target, Name(resource));
      WakeKeysStep(OpsOf(text), restorePatches, c, done, k);
      var effect := WakeEffectOn(OpsOf(text), SavedFor(restorePatches, Name(resource)), resource);
      err := effect == Refuse;
      if effect.Push? {
        var ok := server.Patch(target, resource, effect.restored);
        isCacheInvalid := true;
      }
    }

    /** Wakes the listed objects one after the other; `done` is how far it got. */
    method WakeItems(server: ApiServer, ghost f: Filters) returns (err: bool, ghost done: set<Key>)
      requires !text.Malformed? && WellFormed(server.objects) && IsListing(data, f, target, server.objects)
      modifies server, this`isCacheInvalid
      ensures done <= ManagedKeys(f, target, old(server.objects))
      ensures server.objects == WakeKeys(OpsOf(text), restorePatches, old(server.objects), done)
      ensures !err ==> done == ManagedKeys(f, target, old(server.objects))
      ensures err <==> TargetWakeFails(f, target, Entry(text, restorePatches), old(server.objects))
      ensures !isCacheInvalid ==> !old(isCacheInvalid) && server.objects == old(server.objects)
    {
      ghost var c := server.objects;
      ListingKeys(data, f, target, c);
      assert WakeKeys(OpsOf(text), restorePatches, c, {}) == c;
      done := {};
      var i := 0;
      while i < |data|
        invariant 0 <= i <= |data|
        invariant done == KeysUpTo(target, data, i) && done <= ManagedKeys(f, target, c)
        invariant server.objects == WakeKeys(OpsOf(text), restorePatches, c, done)
        invariant forall k | k in done :: WakeEffectOn(OpsOf(text), SavedFor(restorePatches, k.name), c[k]) != Refuse
        invariant !isCacheInvalid ==> !old(isCacheInvalid) && server.objects == c
      {
        KeysUpToStep(target, data, i);
        ghost var k := Key(target, Name(data[i]));
        assert k in KeysUpTo(target, data, |data|) && c[k] == data[i];
        err := WakeItem(server, data[i], c, done);
        if err {
          return;
        }
        done := done + {k};
        i := i + 1;
      }
      err := false;
    }
  }

  // ---------------------------------------------------------------- target by target

  ghost predicate AgreeOn(t: PatchTarget, c: Cluster, c': Cluster)
  {
    forall k: Key | k.target == t :: (k in c <==> k in c') && (k in c ==> c[k] == c'[k])
  }

  /** The work of a target depends only on the objects of its kind. */
  lemma TargetFrame(f: Filters, t: PatchTarget, e: Entry, c: Cluster, c': Cluster)
    requires WellFormed(c) && WellFormed(c') && AgreeOn(t, c, c')
    ensures ManagedKeys(f, t, c) == ManagedKeys(f, t, c')
    ensures TargetSleepFails(f, t, e.text, c) == TargetSleepFails(f, t, e.text, c')
    ensures TargetWakeFails(f, t, e, c) == TargetWakeFails(f, t, e, c')
  {
    assert ManagedKeys(f, t, c) == ManagedKeys(f, t, c');
  }

  lemma EntryFrame(f: Filters, t: PatchTarget, e: Entry, c: Cluster, c': Cluster)
    requires WellFormed(c) && WellFormed(c') && AgreeOn(t, c, c')
    ensures SleepEntry(f, t, e, c) == SleepEntry(f, t, e, c')
  {
    TargetFrame(f, t, e, c, c');
    var keys := ManagedKeys(f, t, c);
    forall n ensures SavedFor(Saves(OpsOf(e.text), c, t, keys, e.restore), n)
                  == SavedFor(Saves(OpsOf(e.text), c', t, keys, e.restore), n)
    {
      SavesAt(OpsOf(e.text), c, t, keys, e.restore, n);
      SavesAt(OpsOf(e.text), c', t, keys, e.restore, n);
    }
    SameRestorePatches(Saves(OpsOf(e.text), c, t, keys, e.restore), Saves(OpsOf(e.text), c', t, keys, e.restore));
  }

  lemma SleepAtStep(f: Filters, m: Mapping, todo: set<PatchTarget>, t: PatchTarget, c: Cluster, k: Key)
    requires k in c && c[k].Obj? && t in m && t in todo
    ensures k.target == t ==> SleepAt(f, m - todo, c, k) == c[k]
    ensures SleepAt(f, m - (todo - {t}), c, k) ==
            if Managed(f, t, c, k) then SleepDoc(OpsOf(m[t].text), c[k]) else SleepAt(f, m - todo, c, k)
  {
  }

  lemma SameClusters(a: Cluster, b: Cluster)
    requires a.Keys == b.Keys && forall k | k in a :: a[k] == b[k]
    ensures a == b
  {
  }

  lemma SleepAgrees(f: Filters, m: Mapping, todo: set<PatchTarget>, t: PatchTarget, c: Cluster, cur: Cluster)
    requires WellFormed(c) && t in m && t in todo && cur == SleepCluster(f, m - todo, c)
    ensures AgreeOn(t, c, cur)
  {
    forall k | k in c && k.target == t ensures cur[k] == c[k] {
      SleepAtStep(f, m, todo, t, c, k);
    }
  }

  lemma SleepKeyStep(f: Filters, m: Mapping, todo: set<PatchTarget>, t: PatchTarget, c: Cluster, cur: Cluster, k: Key)
    requires WellFormed(c) && t in m && t in todo && k in c
    requires WellFormed(cur) && cur == SleepCluster(f, m - todo, c)
    ensures SleepKeys(OpsOf(m[t].text), cur, ManagedKeys(f, t, c))[k] == SleepAt(f, m - (todo - {t}), c, k)
  {
    SleepAtStep(f, m, todo, t, c, k);
  }

  /** Sleeping one more target; `todo` are the targets still to do, `t` among them. */
  lemma SleepClusterStep(f: Filters, m: Mapping, todo: set<PatchTarget>, t: PatchTarget, c: Cluster, cur: Cluster)
    requires WellFormed(c) && t in m && t in todo
    requires WellFormed(cur) && cur == SleepCluster(f, m - todo, c)
    ensures AgreeOn(t, c, cur)
    ensures SleepKeys(OpsOf(m[t].text), cur, ManagedKeys(f, t, c)) == SleepCluster(f, m - (todo - {t}), c)
  {
    SleepAgrees(f, m, todo, t, c, cur);
    var got, expected := SleepKeys(OpsOf(m[t].text), cur, ManagedKeys(f, t, c)), SleepCluster(f, m - (todo - {t}), c);
    forall k | k in c ensures got[k] == expected[k] {
      SleepKeyStep(f, m, todo, t, c, cur, k);
    }
    SameClusters(got, expected);
  }

  lemma WakeAtStep(f: Filters, m: Mapping, todo: set<PatchTarget>, t: PatchTarget, c: Cluster, k: Key)
    requires k in c && c[k].Obj? && t in m && t in todo
    ensures k.target == t ==> WakeAt(f, m - todo, c, k) == c[k]
    ensures WakeAt(f, m - (todo - {t}), c, k) ==
            if Managed(f, t, c, k) then WakeDoc(OpsOf(m[t].text), SavedFor(m[t].restore, k.name), c[k])
            else WakeAt(f, m - todo, c, k)
  {
  }

  lemma WakeAgrees(f: Filters, m: Mapping, todo: set<PatchTarget>, t: PatchTarget, c: Cluster, cur: Cluster)
    requires WellFormed(c) && t in m && t in todo && cur == WakeCluster(f, m - todo, c)
    ensures AgreeOn(t, c, cur)
  {
    forall k | k in c && k.target == t ensures cur[k] == c[k] {
      WakeAtStep(f, m, todo, t, c, k);
    }
  }

  lemma WakeKeyStep(f: Filters, m: Mapping, todo: set<PatchTarget>, t: PatchTarget, c: Cluster, cur: Cluster, k: Key)
    requires WellFormed(c) && t in m && t in todo && k in c
    requires WellFormed(cur) && cur == WakeCluster(f, m - todo, c)
    ensures WakeKeys(OpsOf(m[t].text), m[t].restore, cur, ManagedKeys(f, t, c))[k] == WakeAt(f, m - (todo - {t}), c, k)
  {
    WakeAtStep(f, m, todo, t, c, k);
  }

  lemma WakeClusterStep(f: Filters, m: Mapping, todo: set<PatchTarget>, t: PatchTarget, c: Cluster, cur: Cluster)
    requires WellFormed(c) && t in m && t in todo
    requires WellFormed(cur) && cur == WakeCluster(f, m - todo, c)
    ensures AgreeOn(t, c, cur)
    ensures WakeKeys(OpsOf(m[t].text), m[t].restore, cur, ManagedKeys(f, t, c)) == WakeCluster(f, m - (todo - {t}), c)
  {
    WakeAgrees(f, m, todo, t, c, cur);
    var got, expected := WakeKeys(OpsOf(m[t].text), m[t].restore, cur, ManagedKeys(f, t, c)), WakeCluster(f, m - (todo - {t}), c);
    forall k | k in c ensures got[k] == expected[k] {
      WakeKeyStep(f, m, todo, t, c, cur, k);
    }
    SameClusters(got, expected);
  }

  /** Every object is as it was, or slept. */
  ghost predicate PartlySlept(f: Filters, m: Mapping, c: Cluster, objects: Cluster)
    requires WellFormed(c)
  {
    objects.Keys == c.Keys && forall k | k in c :: objects[k] == c[k] || objects[k] == SleepCluster(f, m, c)[k]
  }

  ghost predicate PartlyWoken(f: Filters, m: Mapping, c: Cluster, objects: Cluster)
    requires WellFormed(c)
  {
    objects.Keys == c.Keys && forall k | k in c :: objects[k] == c[k] || objects[k] == WakeCluster(f, m, c)[k]
  }

  /** After any part of an operation the server still lists everything it has to. */
  lemma PartlySleptFits(f: Filters, targets: set<PatchTarget>, m: Mapping, c: Cluster, objects: Cluster)
    requires WellFormed(c) && Fits(f, targets, c) && PartlySlept(f, m, c, objects)
    ensures Fits(f, targets, objects)
  {
    FitsKept(f, targets, c, objects);
  }

  lemma PartlyWokenFits(f: Filters, targets: set<PatchTarget>, m: Mapping, c: Cluster, objects: Cluster)
    requires WellFormed(c) && Fits(f, targets, c) && PartlyWoken(f, m, c, objects)
    ensures Fits(f, targets, objects)
  {
    FitsKept(f, targets, c, objects);
  }
}
