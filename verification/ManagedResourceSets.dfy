/** All targets of a SleepInfo together: build the set, put it to sleep, wake it up, save
    what is needed to wake it up. */
module ManagedResourceSets {
  import opened JsonDocs
  import opened Patcher
  import opened Selector
  import opened Resources
  import opened ManagedResources

  class ManagedResourceSet {
    const server: ApiServer
    const filters: Filters
    var resMapping: map<PatchTarget, GenericResource>

    /** Each target has its own entry, and a cache not marked invalid is a fresh listing. */
    ghost predicate Valid()
      reads this, server, resMapping.Values
    {
      && WellFormed(server.objects) && Fits(filters, resMapping.Keys, server.objects)
      && forall t | t in resMapping ::
           && resMapping[t].target == t
           && (!resMapping[t].isCacheInvalid ==> IsListing(resMapping[t].data, filters, t, server.objects))
    }

    ghost function Mapping(): Mapping
      reads this, resMapping.Values
    {
      map t | t in resMapping :: Entry(resMapping[t].text, resMapping[t].restorePatches)
    }

    constructor (server: ApiServer, filters: Filters)
      requires WellFormed(server.objects)
      ensures Valid() && this.server == server && this.filters == filters && resMapping == map[]
    {
      this.server := server;
      this.filters := filters;
      this.resMapping := map[];
    }

    /** Adds a target, in place of an earlier entry for it. */
    method Insert(g: GenericResource)
      requires Valid() && g !in resMapping.Values && |ServerKeys(filters, g.target, server.objects)| <= LIMIT
      requires !g.isCacheInvalid && IsListing(g.data, filters, g.target, server.objects)
      modifies this
      ensures Valid() && resMapping == old(resMapping)[g.target := g]
      ensures Mapping() == old(Mapping())[g.target := Entry(g.text, g.restorePatches)]
    {
      resMapping := resMapping[g.target := g];
    }

    twostate lemma InsertKeepsReady(new g: GenericResource)
      requires resMapping == old(resMapping)[g.target := g] && |g.data| > 0 && !g.isCacheInvalid
      requires forall t | t in old(resMapping) :: unchanged(old(resMapping)[t])
      ensures old(Ready(resMapping.Keys)) ==> Ready(resMapping.Keys)
    {
    }

    /** The entry for a patch, with a fresh list. */
    method ListTarget(patch: Patch, saved: map<string, RestorePatches>) returns (g: GenericResource)
      requires Valid() && |ServerKeys(filters, patch.target, server.objects)| <= LIMIT
      ensures Valid() && Mapping() == old(Mapping()) && (old(Ready(resMapping.Keys)) ==> Ready(resMapping.Keys))
      ensures fresh(g) && g.target == patch.target && g.text == patch.text && g.restorePatches == LoadFor(saved, patch.target)
      ensures !g.isCacheInvalid && IsListing(g.data, filters, g.target, server.objects)
    {
      g := new GenericResource(patch.target, patch.text, LoadFor(saved, patch.target), []);
      g.data := server.List(filters, patch.target);
    }

    /** Lists the target of a patch and adds it if it has objects. */
    method AddPatch(patch: Patch, saved: map<string, RestorePatches>)
      requires Valid() && |ServerKeys(filters, patch.target, server.objects)| <= LIMIT
      modifies this
      ensures Valid() && fresh(resMapping.Values - old(resMapping.Values))
      ensures Mapping() == if ManagedKeys(filters, patch.target, server.objects) == {} then old(Mapping())
                           else old(Mapping())[patch.target := Entry(patch.text, LoadFor(saved, patch.target))]
      ensures old(Ready(resMapping.Keys)) ==> Ready(resMapping.Keys)
    {
      var generic := ListTarget(patch, saved);
      ListingEmptyIff(generic.data, filters, patch.target, server.objects);
      if |generic.data| > 0 {
        label listed:
        Insert(generic);
        InsertKeepsReady@listed(generic);
      }
    }

    /** Every target has at least one object in its list, and the lists of the given targets
        need no refresh. */
    ghost predicate Ready(todo: set<PatchTarget>)
      reads this, resMapping.Values
    {
      && (forall t | t in resMapping :: |resMapping[t].data| > 0)
      && (forall t | t in resMapping && t in todo :: !resMapping[t].isCacheInvalid)
    }

    /** Some target has at least one object in its list. */
    method HasResource() returns (has: bool)
      ensures has <==> exists t :: t in resMapping && |resMapping[t].data| > 0
      ensures Mapping() == old(Mapping()) && (old(Ready({})) ==> Ready({}) && (has <==> Mapping() != map[]))
    {
      var todo := resMapping.Keys;
      while todo != {}
        invariant todo <= resMapping.Keys
        invariant forall t | t in resMapping && t !in todo :: |resMapping[t].data| == 0
        decreases todo
      {
        var t :| t in todo;
        if |resMapping[t].data| > 0 {
          assert t in Mapping();
          return true;
        }
        todo := todo - {t};
      }
      assert Ready({}) ==> resMapping.Keys == {} && Mapping() == map[];
      return false;
    }

    /** Re-lists a target whose cache is invalid. */
    method Refresh(g: GenericResource, ghost todo: set<PatchTarget>)
      requires Valid() && g in resMapping.Values && g.target in todo
      modifies g`data
      ensures Valid() && Mapping() == old(Mapping()) && IsListing(g.data, filters, g.target, server.objects)
      ensures !g.isCacheInvalid ==> g.data == old(g.data)
      ensures old(Ready(todo)) ==> Ready(todo)
    {
      assert resMapping[g.target] == g;
      if g.isCacheInvalid {
        g.data := server.List(filters, g.target);
      }
    }

    /** Sleeps the objects of one target whose list is fresh. */
    method SleepObjects(g: GenericResource) returns (err: bool, ghost done: set<Key>)
      requires Valid() && g in resMapping.Values && g.text.Ops?
      requires IsListing(g.data, filters, g.target, server.objects)
      modifies server, g`restorePatches, g`isCacheInvalid
      ensures Valid()
      ensures done <= ManagedKeys(filters, g.target, old(server.objects))
      ensures server.objects == SleepKeys(OpsOf(g.text), old(server.objects), done)
      ensures !err ==> done == ManagedKeys(filters, g.target, old(server.objects))
      ensures !err ==> Slept(OpsOf(g.text), g.target, old(server.objects), old(g.restorePatches), server.objects, g.restorePatches, done)
      ensures err <==> TargetSleepFails(filters, g.target, g.text, old(server.objects))
    {
      ghost var c := server.objects;
      err, done := g.SleepItems(server, filters);
      SleepKeysWellFormed(g.text.ops, c, done);
      KeepsValid(c, g);
    }

    method SleepListed(g: GenericResource, ghost todo: set<PatchTarget>) returns (err: bool, ghost done: set<Key>)
      requires Valid() && g in resMapping.Values && g.target in todo && g.text.Ops?
      requires IsListing(g.data, filters, g.target, server.objects)
      modifies server, g`restorePatches, g`isCacheInvalid
      ensures Valid() && Mapping() == old(Mapping())[g.target := Entry(g.text, g.restorePatches)]
      ensures done <= ManagedKeys(filters, g.target, old(server.objects))
      ensures server.objects == SleepKeys(OpsOf(g.text), old(server.objects), done)
      ensures !err ==> done == ManagedKeys(filters, g.target, old(server.objects))
      ensures !err ==> Slept(OpsOf(g.text), g.target, old(server.objects), old(g.restorePatches), server.objects, g.restorePatches, done)
      ensures err <==> TargetSleepFails(filters, g.target, g.text, old(server.objects))
      ensures old(Ready(todo)) ==> Ready(todo - {g.target})
    {
      err, done := SleepObjects(g);
      KeepsMapping(g);
      KeepsReady(g, todo);
    }

    /** Sleeps one target: `done` are the resources it got to. */
    method SleepTarget(g: GenericResource, ghost todo: set<PatchTarget>) returns (err: bool, ghost done: set<Key>)
      requires Valid() && g in resMapping.Values && g.target in todo
      modifies server, g
      ensures Valid() && Mapping() == old(Mapping())[g.target := Entry(g.text, g.restorePatches)]
      ensures done <= ManagedKeys(filters, g.target, old(server.objects))
      ensures server.objects == SleepKeys(OpsOf(g.text), old(server.objects), done)
      ensures !err ==> done == ManagedKeys(filters, g.target, old(server.objects))
      ensures !err ==> Slept(OpsOf(g.text), g.target, old(server.objects), old(g.restorePatches), server.objects, g.restorePatches, done)
      ensures err <==> TargetSleepFails(filters, g.target, g.text, old(server.objects))
      ensures old(Ready(todo)) ==> Ready(todo - {g.target})
    {
      if !g.text.Ops? {
        NothingSlept(OpsOf(g.text), g.target, server.objects, g.restorePatches);
        KeepsMapping(g);
        KeepsReady(g, todo);
        return true, {};
      }
      Refresh(g, todo);
      err, done := SleepListed(g, todo);
    }

    twostate lemma KeepsMapping(new g: GenericResource)
      requires resMapping == old(resMapping) && g in resMapping.Values
      requires forall t | t in resMapping :: resMapping[t].target == t
      requires forall t | t in resMapping && resMapping[t] != g :: unchanged(resMapping[t])
      ensures Mapping() == old(Mapping())[g.target := Entry(g.text, g.restorePatches)]
    {
      assert resMapping[g.target] == g;
    }

    twostate lemma KeepsReady(new g: GenericResource, todo: set<PatchTarget>)
      requires resMapping == old(resMapping) && g in resMapping.Values && g.target in todo
      requires forall t | t in resMapping :: resMapping[t].target == t
      requires forall t | t in resMapping && resMapping[t] != g :: unchanged(resMapping[t])
      requires !old(g.isCacheInvalid) ==> g.data == old(g.data)
      ensures old(Ready(todo)) ==> Ready(todo - {g.target})
    {
      assert resMapping[g.target] == g;
    }

    /** Work on one target leaves the other caches right. */
    twostate lemma KeepsValid(c: Cluster, new g: GenericResource)
      requires old(Valid()) && old(allocated(g)) && g in old(resMapping.Values) && resMapping == old(resMapping)
      requires c == old(server.objects) && WellFormed(server.objects) && server.objects.Keys == c.Keys
      requires forall k | k in c && !Managed(filters, g.target, c, k) :: server.objects[k] == c[k]
      requires forall t | t in resMapping && resMapping[t] != g :: unchanged(resMapping[t])
      requires !g.isCacheInvalid ==> server.objects == c && IsListing(g.data, filters, g.target, c)
      ensures Valid()
    {
      FitsKept(filters, resMapping.Keys, c, server.objects);
      forall t | t in resMapping && !resMapping[t].isCacheInvalid
        ensures IsListing(resMapping[t].data, filters, t, server.objects)
      {
        if resMapping[t] != g {
          ListingFrame(resMapping[t].data, filters, t, c, server.objects);
        }
      }
    }
  
    /** Wakes the objects of one target whose list is fresh. */
    method WakeObjects(g: GenericResource) returns (err: bool, ghost done: set<Key>)
      requires Valid() && g in resMapping.Values && !g.text.Malformed?
      requires IsListing(g.data, filters, g.target, server.objects)
      modifies server, g`isCacheInvalid
      ensures Valid()
      ensures done <= ManagedKeys(filters, g.target, old(server.objects))
      ensures server.objects == WakeKeys(OpsOf(g.text), g.restorePatches, old(server.objects), done)
      ensures !err ==> done == ManagedKeys(filters, g.target, old(server.objects))
      ensures err <==> TargetWakeFails(filters, g.target, Entry(g.text, g.restorePatches), old(server.objects))
    {
      ghost var c := server.objects;
      err, done := g.WakeItems(server, filters);
      WakeKeysWellFormed(OpsOf(g.text), g.restorePatches, c, done);
      KeepsValid(c, g);
    }

    method WakeListed(g: GenericResource, ghost todo: set<PatchTarget>) returns (err: bool, ghost done: set<Key>)
      requires Valid() && g in resMapping.Values && g.target in todo && !g.text.Malformed?
      requires IsListing(g.data, filters, g.target, server.objects)
      modifies server, g`isCacheInvalid
      ensures Valid() && Mapping() == old(Mapping())
      ensures done <= ManagedKeys(filters, g.target, old(server.objects))
      ensures server.objects == WakeKeys(OpsOf(g.text), g.restorePatches, old(server.objects), done)
      ensures !err ==> done == ManagedKeys(filters, g.target, old(server.objects))
      ensures err <==> TargetWakeFails(filters, g.target, Entry(g.text, g.restorePatches), old(server.objects))
      ensures old(Ready(todo)) ==> Ready(todo - {g.target})
    {
      err, done := WakeObjects(g);
      SameMapping();
      KeepsReady(g, todo);
    }

    /** Wakes one target: `done` are the resources it got to. */
    method WakeTarget(g: GenericResource, ghost todo: set<PatchTarget>) returns (err: bool, ghost done: set<Key>)
      requires Valid() && g in resMapping.Values && g.target in todo
      modifies server, g`data, g`isCacheInvalid
      ensures Valid() && Mapping() == old(Mapping())
      ensures done <= ManagedKeys(filters, g.target, old(server.objects))
      ensures server.objects == WakeKeys(OpsOf(g.text), g.restorePatches, old(server.objects), done)
      ensures !err ==> done == ManagedKeys(filters, g.target, old(server.objects))
      ensures err <==> TargetWakeFails(filters, g.target, Entry(g.text, g.restorePatches), old(server.objects))
      ensures old(Ready(todo)) ==> Ready(todo - {g.target})
    {
      Refresh(g, todo);
      if g.text.Malformed? {
        WakeNothing(OpsOf(g.text), g.restorePatches, server.objects);
        return true, {};
      }
      err, done := WakeListed(g, todo);
    }

    twostate lemma SameMapping()
      requires resMapping == old(resMapping)
      requires forall t | t in resMapping :: resMapping[t].restorePatches == old(resMapping[t].restorePatches)
      ensures Mapping() == old(Mapping())
    {
    }

    /** Where the loop stands that puts the mapping `m` over the cluster `c` to sleep. */
    ghost predicate Sleeping(m: Mapping, c: Cluster, todo: set<PatchTarget>, ready: bool, now: Mapping)
      reads this, server, resMapping.Values
    {
      && Valid() && WellFormed(c) && Mapping() == now && SleptTargets(filters, m, c, todo, server.objects, now)
      && (ready ==> Ready(todo))
    }

    /** Where it stands when a target failed. */
    ghost predicate SleepStopped(m: Mapping, c: Cluster)
      reads this, server, resMapping.Values
    {
      Valid() && WellFormed(c) && SleepFails(filters, m, c) && PartlySlept(filters, m, c, server.objects)
    }

    /** One round of the loop over the targets to put to sleep. */
    method SleepOne(t: PatchTarget, ghost m: Mapping, ghost c: Cluster, ghost todo: set<PatchTarget>, ghost ready: bool, ghost now: Mapping)
      returns (err: bool, ghost next: Mapping)
      requires t in todo && t in resMapping && Sleeping(m, c, todo, ready, now)
      modifies server, resMapping[t]
      ensures if err then SleepStopped(m, c) else Sleeping(m, c, todo - {t}, ready, next)
    {
      ghost var cur := server.objects;
      ghost var done;
      err, done := SleepTarget(resMapping[t], todo);
      next := Mapping();
      if err {
        PartialSleep(filters, m, c, todo, t, cur, now, server.objects, done);
      } else {
        SleepOneMore(filters, m, c, todo, t, cur, now, server.objects, resMapping[t].restorePatches);
      }
    }

    /** Where the loop stands that wakes the mapping `m` over the cluster `c` up. */
    ghost predicate Waking(m: Mapping, c: Cluster, todo: set<PatchTarget>, ready: bool)
      reads this, server, resMapping.Values
    {
      && Valid() && WellFormed(c) && Mapping() == m && WokenTargets(filters, m, c, todo, server.objects)
      && (ready ==> Ready(todo))
    }

    /** One round of the loop over the targets to wake up. */
    method WakeOne(t: PatchTarget, ghost m: Mapping, ghost c: Cluster, ghost todo: set<PatchTarget>, ghost ready: bool)
      returns (err: bool)
      requires t in todo && t in resMapping && Waking(m, c, todo, ready)
      modifies server, resMapping[t]
      ensures Valid() && Mapping() == m
      ensures !err ==> Waking(m, c, todo - {t}, ready)
      ensures err ==> WakeFails(filters, m, c) && PartlyWoken(filters, m, c, server.objects)
    {
      ghost var cur := server.objects;
      assert m[t] == Entry(resMapping[t].text, resMapping[t].restorePatches);
      ghost var done;
      err, done := WakeTarget(resMapping[t], todo);
      if err {
        PartialWake(filters, m, c, todo, t, cur, server.objects, done);
      } else {
        WakeOneMore(filters, m, c, todo, t, cur, server.objects);
      }
    }

    /** The loop over the targets to put to sleep. */
    method SleepAll(ghost m: Mapping, ghost c: Cluster, ghost ready: bool) returns (err: bool, ghost now: Mapping)
      requires Sleeping(m, c, resMapping.Keys, ready, m)
      modifies server, resMapping.Values
      ensures if err then SleepStopped(m, c) else Sleeping(m, c, {}, ready, now)
    {
      now := m;
      var todo := resMapping.Keys;
      while todo != {}
        invariant todo <= resMapping.Keys && Sleeping(m, c, todo, ready, now)
        decreases todo
      {
        var t :| t in todo;
        err, now := SleepOne(t, m, c, todo, ready, now);
        if err {
          return;
        }
        todo := todo - {t};
      }
      err := false;
    }

    /** Puts everything to sleep, target by target in any order. Completed, it does exactly
        what re-listing every target first would do; it fails exactly when some target does,
        and then every object is as it was or slept. */
    method Sleep() returns (err: bool)
      requires Valid()
      modifies server, resMapping.Values
      ensures Valid()
      ensures err <==> SleepFails(filters, old(Mapping()), old(server.objects))
      ensures !err ==> server.objects == SleepCluster(filters, old(Mapping()), old(server.objects))
      ensures !err ==> Mapping() == SleepMapping(filters, old(Mapping()), old(server.objects))
      ensures err ==> PartlySlept(filters, old(Mapping()), old(server.objects), server.objects)
      ensures !err && old(Ready(resMapping.Keys)) ==> Ready({})
    {
      SleepStarts(filters, Mapping(), server.objects);
      ghost var now;
      err, now := SleepAll(Mapping(), server.objects, Ready(resMapping.Keys));
      if !err {
        SleepEnds(filters, old(Mapping()), old(server.objects), server.objects, now);
      }
    }

    /** The loop over the targets to wake up. */
    method WakeAll(ghost m: Mapping, ghost c: Cluster, ghost ready: bool) returns (err: bool)
      requires Waking(m, c, resMapping.Keys, ready)
      modifies server, resMapping.Values
      ensures Valid() && Mapping() == m
      ensures !err ==> Waking(m, c, {}, ready)
      ensures err ==> WakeFails(filters, m, c) && PartlyWoken(filters, m, c, server.objects)
    {
      var todo := resMapping.Keys;
      while todo != {}
        invariant todo <= resMapping.Keys && Waking(m, c, todo, ready)
        decreases todo
      {
        var t :| t in todo;
        err := WakeOne(t, m, c, todo, ready);
        if err {
          return;
        }
        todo := todo - {t};
      }
      err := false;
    }

    /** Wakes everything up, target by target in any order, with the same guarantees. */
    method WakeUp() returns (err: bool)
      requires Valid()
      modifies server, resMapping.Values
      ensures Valid() && Mapping() == old(Mapping())
      ensures err <==> WakeFails(filters, old(Mapping()), old(server.objects))
      ensures !err ==> server.objects == WakeCluster(filters, old(Mapping()), old(server.objects))
      ensures err ==> PartlyWoken(filters, old(Mapping()), old(server.objects), server.objects)
      ensures !err && old(Ready(resMapping.Keys)) ==> Ready({})
    {
      WakeStarts(filters, Mapping(), server.objects);
      err := WakeAll(Mapping(), server.objects, Ready(resMapping.Keys));
      if !err {
        WakeEnds(filters, old(Mapping()), old(server.objects), server.objects);
      }
    }

    /** The restore patches to store, by target key; targets without any are left out. */
    method GetOriginalInfoToSave() returns (saved: map<string, RestorePatches>)
      ensures IsSaveOf(saved, old(Mapping()))
    {
      saved := map[];
      var todo := resMapping.Keys;
      while todo != {}
        invariant todo <= resMapping.Keys
        invariant SavedTargets(saved, Mapping(), todo)
        decreases todo
      {
        var t :| t in todo;
        ghost var before := saved;
        assert Mapping()[t].restore == resMapping[t].restorePatches;
        if resMapping[t].restorePatches != map[] {
          saved := saved[TargetString(t) := resMapping[t].restorePatches];
        }
        SaveOneMore(before, Mapping(), todo, t);
        todo := todo - {t};
      }
    }
  }

  // ---------------------------------------------------------------- saving

  /** Every stored entry comes from a target already handled, and each of those is stored. */
  ghost predicate SavedTargets(saved: map<string, RestorePatches>, m: Mapping, todo: set<PatchTarget>)
  {
    && (forall t | t in m && t !in todo && m[t].restore != map[] :: TargetString(t) in saved)
    && (forall s | s in saved ::
          exists t :: t in m && TargetString(t) == s && m[t].restore != map[] && saved[s] == m[t].restore)
  }

  lemma SaveOneMore(saved: map<string, RestorePatches>, m: Mapping, todo: set<PatchTarget>, t: PatchTarget)
    requires SavedTargets(saved, m, todo) && t in m && t in todo
    ensures SavedTargets(if m[t].restore != map[] then saved[TargetString(t) := m[t].restore] else saved, m, todo - {t})
  {
  }

  // ---------------------------------------------------------------- building the set

  /** The targets of the first `n` patches that have objects, with their last patch. */
  ghost predicate BuiltUpTo(patches: seq<Patch>, n: nat, f: Filters, c: Cluster, saved: map<string, RestorePatches>, m: Mapping)
    requires n <= |patches|
  {
    m == NewMapping(patches[..n], f, c, saved)
  }

  lemma TargetsOneMore(patches: seq<Patch>, n: nat, t: PatchTarget)
    requires n < |patches|
    ensures t in Targets(patches[..n + 1]) <==> t in Targets(patches[..n]) || t == patches[n].target
  {
    var a, b := patches[..n], patches[..n + 1];
    if i :| 0 <= i < |a| && a[i].target == t { assert b[i].target == t; }
    if t == patches[n].target { assert b[n].target == t; }
    if i :| 0 <= i < |b| && b[i].target == t && i < n { assert a[i].target == t; }
  }

  lemma PatchForOneMore(patches: seq<Patch>, n: nat, t: PatchTarget)
    requires n < |patches|
    ensures PatchFor(patches[..n + 1], t) == if patches[n].target == t then Some(patches[n].text) else PatchFor(patches[..n], t)
  {
    var b := patches[..n + 1];
    assert b[..|b| - 1] == patches[..n] && b[|b| - 1] == patches[n];
  }

  lemma BuildOneMore(patches: seq<Patch>, n: nat, f: Filters, c: Cluster, saved: map<string, RestorePatches>, m: Mapping)
    requires n < |patches| && BuiltUpTo(patches, n, f, c, saved, m)
    ensures var p := patches[n];
            BuiltUpTo(patches, n + 1, f, c, saved,
              if ManagedKeys(f, p.target, c) == {} then m else m[p.target := Entry(p.text, LoadFor(saved, p.target))])
  {
    var p := patches[n];
    var next := if ManagedKeys(f, p.target, c) == {} then m else m[p.target := Entry(p.text, LoadFor(saved, p.target))];
    var expected := NewMapping(patches[..n + 1], f, c, saved);
    forall t ensures (t in next <==> t in expected) && (t in next ==> next[t] == expected[t]) {
      TargetsOneMore(patches, n, t);
      PatchForOneMore(patches, n, t);
    }
    assert next == expected;
  }

  lemma ListingEmptyIff(ds: seq<Json>, f: Filters, t: PatchTarget, c: Cluster)
    requires IsListing(ds, f, t, c)
    ensures |ds| == 0 <==> ManagedKeys(f, t, c) == {}
  {
    if |ds| > 0 { assert ds[0] in ds; }
  }

  /** Lists every target of the patches and keeps those with objects; a later patch for the
      same target takes the place of an earlier one. */
  method NewResources(server: ApiServer, patches: seq<Patch>, filters: Filters, saved: map<string, RestorePatches>)
    returns (resources: ManagedResourceSet)
    requires WellFormed(server.objects) && Fits(filters, Targets(patches), server.objects)
    ensures fresh(resources) && fresh(resources.resMapping.Values)
    ensures resources.Valid() && resources.server == server && resources.filters == filters
    ensures resources.Mapping() == NewMapping(patches, filters, server.objects, saved)
    ensures resources.Ready(resources.resMapping.Keys)
  {
    resources := new ManagedResourceSet(server, filters);
    assert patches[..0] == [];
    var i := 0;
    while i < |patches|
      invariant 0 <= i <= |patches|
      invariant fresh(resources) && fresh(resources.resMapping.Values)
      invariant resources.Valid() && resources.server == server && resources.filters == filters
      invariant BuiltUpTo(patches, i, filters, server.objects, saved, resources.Mapping())
      invariant resources.Ready(resources.resMapping.Keys)
    {
      BuildOneMore(patches, i, filters, server.objects, saved, resources.Mapping());
      resources.AddPatch(patches[i], saved);
      i := i + 1;
    }
    assert patches[..|patches|] == patches;
  }

  // ---------------------------------------------------------------- the wake-up loop over targets

  lemma WakeNothing(ops: seq<Op>, saved: RestorePatches, c: Cluster)
    requires WellFormed(c)
    ensures WakeKeys(ops, saved, c, {}) == c
  {
  }

  ghost predicate WokenTargets(f: Filters, m: Mapping, c: Cluster, todo: set<PatchTarget>, objects: Cluster)
    requires WellFormed(c)
  {
    && objects == WakeCluster(f, m - todo, c)
    && (forall t | t in m && t !in todo :: !TargetWakeFails(f, t, m[t], c))
  }

  lemma WakeStarts(f: Filters, m: Mapping, c: Cluster)
    requires WellFormed(c)
    ensures WokenTargets(f, m, c, m.Keys, c)
  {
    assert m - m.Keys == map[];
    assert WakeCluster(f, map[], c) == c;
  }

  lemma WakeEnds(f: Filters, m: Mapping, c: Cluster, objects: Cluster)
    requires WellFormed(c) && WokenTargets(f, m, c, {}, objects)
    ensures objects == WakeCluster(f, m, c) && !WakeFails(f, m, c)
  {
    assert m - {} == m;
  }

  lemma WakeReaches(f: Filters, m: Mapping, c: Cluster, todo: set<PatchTarget>, t: PatchTarget, cur: Cluster)
    requires WellFormed(c) && WellFormed(cur) && WokenTargets(f, m, c, todo, cur) && t in m && t in todo
    ensures ManagedKeys(f, t, c) == ManagedKeys(f, t, cur)
    ensures TargetWakeFails(f, t, m[t], c) == TargetWakeFails(f, t, m[t], cur)
    ensures WakeKeys(OpsOf(m[t].text), m[t].restore, cur, ManagedKeys(f, t, c)) == WakeCluster(f, m - (todo - {t}), c)
  {
    WakeClusterStep(f, m, todo, t, c, cur);
    TargetFrame(f, t, m[t], c, cur);
  }

  lemma WakeOneMore(f: Filters, m: Mapping, c: Cluster, todo: set<PatchTarget>, t: PatchTarget, cur: Cluster, objects: Cluster)
    requires WellFormed(c) && WellFormed(cur) && WokenTargets(f, m, c, todo, cur) && t in m && t in todo
    requires !TargetWakeFails(f, t, m[t], cur)
    requires objects == WakeKeys(OpsOf(m[t].text), m[t].restore, cur, ManagedKeys(f, t, cur))
    ensures WokenTargets(f, m, c, todo - {t}, objects)
  {
    WakeReaches(f, m, c, todo, t, cur);
  }

  lemma PartialWake(f: Filters, m: Mapping, c: Cluster, todo: set<PatchTarget>, t: PatchTarget, cur: Cluster,
                    objects: Cluster, done: set<Key>)
    requires WellFormed(c) && WellFormed(cur) && WokenTargets(f, m, c, todo, cur) && t in m && t in todo
    requires TargetWakeFails(f, t, m[t], cur)
    requires done <= ManagedKeys(f, t, cur) && objects == WakeKeys(OpsOf(m[t].text), m[t].restore, cur, done)
    ensures WakeFails(f, m, c) && PartlyWoken(f, m, c, objects)
  {
    WakeReaches(f, m, c, todo, t, cur);
    forall k | k in c ensures objects[k] == c[k] || objects[k] == WakeAt(f, m, c, k) {
      WakeAtStep(f, m, todo, t, c, k);
    }
  }

  // ---------------------------------------------------------------- the loop over targets

  /** Where a Sleep stands when the targets `todo` are still to do. */
  ghost predicate SleptTargets(f: Filters, m: Mapping, c: Cluster, todo: set<PatchTarget>, objects: Cluster, now: Mapping)
    requires WellFormed(c)
  {
    && objects == SleepCluster(f, m - todo, c)
    && now.Keys == m.Keys
    && (forall t | t in m :: now[t] == if t in todo then m[t] else SleepEntry(f, t, m[t], c))
    && (forall t | t in m && t !in todo :: !TargetSleepFails(f, t, m[t].text, c))
  }

  lemma SleepStarts(f: Filters, m: Mapping, c: Cluster)
    requires WellFormed(c)
    ensures SleptTargets(f, m, c, m.Keys, c, m)
  {
    assert m - m.Keys == map[];
    assert SleepCluster(f, map[], c) == c;
  }

  lemma SleepEnds(f: Filters, m: Mapping, c: Cluster, objects: Cluster, now: Mapping)
    requires WellFormed(c) && SleptTargets(f, m, c, {}, objects, now)
    ensures objects == SleepCluster(f, m, c) && now == SleepMapping(f, m, c) && !SleepFails(f, m, c)
  {
    assert m - {} == m;
    var expected := SleepMapping(f, m, c);
    assert now.Keys == expected.Keys;
    assert forall t | t in now :: now[t] == expected[t];
  }

  /** The keys and the failure of a target, seen from the cluster it is reached in. */
  lemma SleepReaches(f: Filters, m: Mapping, c: Cluster, todo: set<PatchTarget>, t: PatchTarget, cur: Cluster, now: Mapping)
    requires WellFormed(c) && WellFormed(cur) && SleptTargets(f, m, c, todo, cur, now) && t in m && t in todo
    ensures AgreeOn(t, c, cur)
    ensures ManagedKeys(f, t, c) == ManagedKeys(f, t, cur)
    ensures TargetSleepFails(f, t, m[t].text, c) == TargetSleepFails(f, t, m[t].text, cur)
    ensures SleepEntry(f, t, m[t], c) == SleepEntry(f, t, m[t], cur)
    ensures SleepKeys(OpsOf(m[t].text), cur, ManagedKeys(f, t, c)) == SleepCluster(f, m - (todo - {t}), c)
  {
    SleepClusterStep(f, m, todo, t, c, cur);
    TargetFrame(f, t, m[t], c, cur);
    EntryFrame(f, t, m[t], c, cur);
  }

  lemma SleptEntry(f: Filters, t: PatchTarget, e: Entry, cur: Cluster, objects: Cluster, restore: RestorePatches)
    requires WellFormed(cur) && Slept(OpsOf(e.text), t, cur, e.restore, objects, restore, ManagedKeys(f, t, cur))
    ensures Entry(e.text, restore) == SleepEntry(f, t, e, cur)
    ensures objects == SleepKeys(OpsOf(e.text), cur, ManagedKeys(f, t, cur))
  {
  }

  /** One target more, from what it leads to. */
  lemma SleptTargetsStep(f: Filters, m: Mapping, c: Cluster, todo: set<PatchTarget>, t: PatchTarget, cur: Cluster, now: Mapping,
                         objects: Cluster, entry: Entry)
    requires WellFormed(c) && SleptTargets(f, m, c, todo, cur, now) && t in m && t in todo
    requires !TargetSleepFails(f, t, m[t].text, c) && entry == SleepEntry(f, t, m[t], c)
    requires objects == SleepCluster(f, m - (todo - {t}), c)
    ensures SleptTargets(f, m, c, todo - {t}, objects, now[t := entry])
  {
  }

  lemma SleepOneMore(f: Filters, m: Mapping, c: Cluster, todo: set<PatchTarget>, t: PatchTarget, cur: Cluster, now: Mapping,
                     objects: Cluster, restore: RestorePatches)
    requires WellFormed(c) && WellFormed(cur) && SleptTargets(f, m, c, todo, cur, now) && t in m && t in todo
    requires !TargetSleepFails(f, t, m[t].text, cur)
    requires Slept(OpsOf(m[t].text), t, cur, m[t].restore, objects, restore, ManagedKeys(f, t, cur))
    ensures SleptTargets(f, m, c, todo - {t}, objects, now[t := Entry(m[t].text, restore)])
  {
    SleptEntry(f, t, m[t], cur, objects, restore);
    SleepReaches(f, m, c, todo, t, cur, now);
    SleptTargetsStep(f, m, c, todo, t, cur, now, objects, Entry(m[t].text, restore));
  }

  lemma PartialSleep(f: Filters, m: Mapping, c: Cluster, todo: set<PatchTarget>, t: PatchTarget, cur: Cluster, now: Mapping,
                     objects: Cluster, done: set<Key>)
    requires WellFormed(c) && WellFormed(cur) && SleptTargets(f, m, c, todo, cur, now) && t in m && t in todo
    requires TargetSleepFails(f, t, m[t].text, cur)
    requires done <= ManagedKeys(f, t, cur) && objects == SleepKeys(OpsOf(m[t].text), cur, done)
    ensures SleepFails(f, m, c) && PartlySlept(f, m, c, objects)
  {
    SleepReaches(f, m, c, todo, t, cur, now);
    forall k | k in c ensures objects[k] == c[k] || objects[k] == SleepAt(f, m, c, k) {
      SleepAtStep(f, m, todo, t, c, k);
    }
  }
}
