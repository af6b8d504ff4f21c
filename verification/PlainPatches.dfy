/** Patches that only add plain values (no objects, no nulls) at pairwise disjoint paths,
    the three default patches among them, satisfy every hypothesis of the restore theorem
    on null-free originals. */
module PlainPatches {
  import opened JsonDocs
  import opened Patcher
  import opened ApiObjects
  import opened SleepDocs

  predicate PlainAdd(op: Op)
  {
    op.Add? && op.path != [] && !op.value.Obj? && !op.value.Null?
  }

  ghost predicate PlainPatch(ops: seq<Op>)
  {
    PairwiseDisjoint(ops) && KeepsMetadata(ops) && forall i | 0 <= i < |ops| :: PlainAdd(ops[i])
  }

  lemma {:induction false} LookupPrefix(doc: Json, q: Path, p: Path)
    requires Lookup(doc, p).Some? && q < p
    ensures Lookup(doc, q).Some? && Lookup(doc, q).value.Obj?
    decreases |q|
  {
    if q != [] {
      assert q[1..] < p[1..];
      LookupPrefix(doc.members[p[0]], q[1..], p[1..]);
    }
  }

  lemma LookupBelowLeaf(doc: Json, p: Path, q: Path)
    requires Lookup(doc, p).Some? && !Lookup(doc, p).value.Obj? && p < q
    ensures Lookup(doc, q) == None
  {
    if Lookup(doc, q).Some? { LookupPrefix(doc, p, q); }
  }

  // ---------------------------------------------------------------- forward changes

  lemma {:induction false} LookupAppend(doc: Json, p: Path, q: Path)
    requires Lookup(doc, p).Some?
    ensures Lookup(doc, p + q) == Lookup(Lookup(doc, p).value, q)
    decreases |p|
  {
    if p == [] {
      assert p + q == q;
    } else {
      assert (p + q)[0] == p[0] && (p + q)[1..] == p[1..] + q;
      LookupAppend(doc.members[p[0]], p[1..], q);
    }
  }

  lemma {:induction false} SharedNullAt(a: Json, b: Json, q: Path)
    requires NullsShared(a, b) && q != [] && Lookup(b, q) == Some(Null)
    ensures Lookup(a, q) == Some(Null)
    decreases |q|
  {
    if |q| > 1 {
      SharedNullAt(MemberOr(MembersOf(a), q[0]), b.members[q[0]], q[1..]);
    }
  }

  lemma {:induction false} NullsSharedFrom(a: Json, b: Json)
    requires forall q: Path | q != [] && Lookup(b, q) == Some(Null) :: Lookup(a, q) == Some(Null)
    ensures NullsShared(a, b)
    decreases b
  {
    if b.Obj? {
      forall k | k in b.members
        ensures b.members[k].Null? ==> a.Obj? && k in a.members && a.members[k].Null?
        ensures NullsShared(MemberOr(MembersOf(a), k), b.members[k])
      {
        LookupCons(a, k, []);
        LookupCons(b, k, []);
        forall q: Path | q != [] && Lookup(b.members[k], q) == Some(Null)
          ensures Lookup(MemberOr(MembersOf(a), k), q) == Some(Null)
        {
          LookupCons(a, k, q);
          LookupCons(b, k, q);
        }
        NullsSharedFrom(MemberOr(MembersOf(a), k), b.members[k]);
      }
    }
  }

  /** Every null of `b` below its root is one of `a`, path by path. */
  ghost predicate NullPathsShared(a: Json, b: Json)
  {
    forall q: Path | q != [] && Lookup(b, q) == Some(Null) :: Lookup(a, q) == Some(Null)
  }

  lemma NullsSharedByPath(a: Json, b: Json)
    ensures NullsShared(a, b) <==> NullPathsShared(a, b)
  {
    if NullsShared(a, b) {
      forall q: Path | q != [] && Lookup(b, q) == Some(Null) ensures Lookup(a, q) == Some(Null) {
        SharedNullAt(a, b, q);
      }
    }
    if NullPathsShared(a, b) {
      NullsSharedFrom(a, b);
    }
  }

  /** Every member of `a` whose container is still an object in `b` is still there. */
  ghost predicate DeletesNothing(a: Json, b: Json)
  {
    forall q: Path, k: string | Lookup(a, q + [k]).Some? && Lookup(b, q).Some? && Lookup(b, q).value.Obj? ::
      k in Lookup(b, q).value.members
  }

  ghost predicate AddsNoNull(a: Json, b: Json)
  {
    forall q: Path | Lookup(b, q) == Some(Null) :: Lookup(a, q) == Some(Null)
  }

  lemma LookupCons(doc: Json, k: string, q: Path)
    ensures Lookup(doc, [k] + q) == if doc.Obj? && k in doc.members then Lookup(doc.members[k], q) else None
  {
    assert ([k] + q)[1..] == q;
  }

  lemma {:induction false} NoNullAnywhere(v: Json)
    requires forall q: Path :: Lookup(v, q) != Some(Null)
    ensures !v.Null? && NullFree(v)
  {
    assert Lookup(v, []) == Some(v);
    if v.Obj? {
      forall k | k in v.members ensures !v.members[k].Null? && NullFree(v.members[k]) {
        forall q: Path ensures Lookup(v.members[k], q) != Some(Null) { LookupCons(v, k, q); }
        NoNullAnywhere(v.members[k]);
      }
    }
  }

  lemma DescendsTo(a: Json, b: Json, k: string)
    requires a.Obj? && b.Obj? && k in a.members && k in b.members
    requires DeletesNothing(a, b) && AddsNoNull(a, b)
    ensures DeletesNothing(a.members[k], b.members[k]) && AddsNoNull(a.members[k], b.members[k])
  {
    forall q: Path, j: string
      | Lookup(a.members[k], q + [j]).Some? && Lookup(b.members[k], q).Some? && Lookup(b.members[k], q).value.Obj?
      ensures j in Lookup(b.members[k], q).value.members
    {
      LookupCons(a, k, q + [j]);
      LookupCons(b, k, q);
      assert [k] + (q + [j]) == ([k] + q) + [j];
    }
    forall q: Path | Lookup(b.members[k], q) == Some(Null) ensures Lookup(a.members[k], q) == Some(Null) {
      LookupCons(a, k, q);
      LookupCons(b, k, q);
    }
  }

  lemma NewValueIsNullFree(a: Json, b: Json, k: string)
    requires a.Obj? && b.Obj? && AddsNoNull(a, b) && k in b.members
    requires k in a.members ==> !a.members[k].Obj? && a.members[k] != b.members[k]
    ensures !b.members[k].Null? && NullFree(b.members[k])
  {
    forall q: Path ensures Lookup(b.members[k], q) != Some(Null) {
      LookupCons(a, k, q);
      LookupCons(b, k, q);
    }
    NoNullAnywhere(b.members[k]);
  }

  lemma KeepsMember(a: Json, b: Json, k: string)
    requires a.Obj? && b.Obj? && DeletesNothing(a, b) && k in a.members
    ensures k in b.members
  {
    LookupCons(a, k, []);
    assert [] + [k] == [k] + [];
    assert Lookup(b, []) == Some(b);
  }

  /** A change that deletes nothing and adds no null is a null-free merge patch. */
  lemma {:induction false} ForwardIsNullFree(a: Json, b: Json)
    requires a.Obj? && b.Obj? && DeletesNothing(a, b) && AddsNoNull(a, b)
    ensures NullFree(Obj(Diff(a, b)))
    decreases b
  {
    var d := Diff(a, b);
    forall k | k in d ensures !d[k].Null? && NullFree(d[k]) {
      DiffMember(a, b, k);
      if k in a.members { KeepsMember(a, b, k); }
      if k in a.members && a.members[k].Obj? {
        DescendsTo(a, b, k);
        if b.members[k].Obj? {
          ForwardIsNullFree(a.members[k], b.members[k]);
        } else {
          assert Lookup(b.members[k], []) == Some(b.members[k]);
          assert Lookup(a.members[k], []) == Some(a.members[k]);
        }
      } else {
        NewValueIsNullFree(a, b, k);
      }
    }
  }

  /** Where a path stands with respect to an operation it is not disjoint from. */
  ghost predicate StandsAt(op: Op, m: Json, q: Path)
  {
    || (op.path == q && op.Add? && Lookup(m, q) == Some(op.value))
    || (op.path < q && Lookup(m, q) == None)
    || (q < op.path && Lookup(m, op.path).Some?)
  }

  lemma Prefixes(p: Path, q: Path)
    requires !Disjoint(p, q)
    ensures p == q || p < q || q < p
  {
    if |p| == |q| {
      assert p == q;
    }
  }

  lemma PlainPath(ops: seq<Op>, o: Json, q: Path, i: nat)
    requires PlainPatch(ops) && Exec(ops, o).Ok? && i < |ops| && !Disjoint(ops[i].path, q)
    ensures StandsAt(ops[i], Exec(ops, o).value, q)
  {
    var m := Exec(ops, o).value;
    ExecSettlesAll(ops, o);
    assert Settled(ops[i], m) && PlainAdd(ops[i]);
    Prefixes(ops[i].path, q);
    if ops[i].path < q { LookupBelowLeaf(m, ops[i].path, q); }
  }

  /** Where a path stands with respect to a list of operations. */
  lemma PlainPaths(ops: seq<Op>, o: Json, q: Path)
    requires PlainPatch(ops) && Exec(ops, o).Ok?
    ensures var m := Exec(ops, o).value;
            || Lookup(m, q) == Lookup(o, q)
            || (exists i | 0 <= i < |ops| :: StandsAt(ops[i], m, q))
  {
    if forall i | 0 <= i < |ops| :: Disjoint(ops[i].path, q) {
      ExecKeepsDisjoint(ops, o, q);
    } else {
      var i :| 0 <= i < |ops| && !Disjoint(ops[i].path, q);
      PlainPath(ops, o, q, i);
    }
  }

  lemma PlainAddsNoNull(ops: seq<Op>, o: Json)
    requires PlainPatch(ops) && Exec(ops, o).Ok?
    ensures AddsNoNull(o, Exec(ops, o).value)
  {
    var m := Exec(ops, o).value;
    forall q: Path | Lookup(m, q) == Some(Null) ensures Lookup(o, q) == Some(Null) {
      PlainPaths(ops, o, q);
      if i :| 0 <= i < |ops| && StandsAt(ops[i], m, q) {
        assert PlainAdd(ops[i]);
        if q < ops[i].path { LookupPrefix(m, q, ops[i].path); }
      }
    }
  }

  lemma LookupSnoc(doc: Json, q: Path, k: string)
    ensures Lookup(doc, q + [k]) ==
            if Lookup(doc, q).Some? && Lookup(doc, q).value.Obj? && k in Lookup(doc, q).value.members
            then Some(Lookup(doc, q).value.members[k]) else None
    decreases |q|
  {
    if q == [] {
      LookupCons(doc, k, []);
      assert q + [k] == [k] + [];
    } else {
      assert (q + [k])[1..] == q[1..] + [k];
      if doc.Obj? && q[0] in doc.members { LookupSnoc(doc.members[q[0]], q[1..], k); }
    }
  }

  /** No object lies at or below a path the patch added a plain value to. */
  lemma NoObjectBelowAdd(ops: seq<Op>, o: Json, i: nat, q: Path)
    requires PlainPatch(ops) && Exec(ops, o).Ok? && i < |ops| && ops[i].path <= q
    ensures var found := Lookup(Exec(ops, o).value, q); found.Some? ==> !found.value.Obj?
  {
    var m := Exec(ops, o).value;
    ExecSettlesAll(ops, o);
    assert Settled(ops[i], m) && PlainAdd(ops[i]);
    if ops[i].path != q { LookupBelowLeaf(m, ops[i].path, q); }
  }

  lemma PlainKeepsMember(ops: seq<Op>, o: Json, q: Path, k: string)
    requires PlainPatch(ops) && Exec(ops, o).Ok? && Lookup(o, q + [k]).Some?
    requires var found := Lookup(Exec(ops, o).value, q); found.Some? && found.value.Obj?
    ensures Lookup(Exec(ops, o).value, q + [k]).Some?
  {
    var m := Exec(ops, o).value;
    var p := q + [k];
    PlainPaths(ops, o, p);
    if i :| 0 <= i < |ops| && StandsAt(ops[i], m, p) {
      if p < ops[i].path {
        LookupPrefix(m, p, ops[i].path);
      } else if ops[i].path < p {
        assert ops[i].path <= q;
        NoObjectBelowAdd(ops, o, i, q);
      }
    }
  }

  lemma PlainDeletesNothing(ops: seq<Op>, o: Json)
    requires PlainPatch(ops) && Exec(ops, o).Ok?
    ensures DeletesNothing(o, Exec(ops, o).value)
  {
    var m := Exec(ops, o).value;
    forall q: Path, k: string | Lookup(o, q + [k]).Some? && Lookup(m, q).Some? && Lookup(m, q).value.Obj?
      ensures k in Lookup(m, q).value.members
    {
      PlainKeepsMember(ops, o, q, k);
      LookupSnoc(m, q, k);
    }
  }

  lemma PlainKeepsObject(ops: seq<Op>, o: Json)
    requires PlainPatch(ops) && o.Obj? && Exec(ops, o).Ok?
    ensures Exec(ops, o).value.Obj?
  {
    assert forall i | 0 <= i < |ops| :: PlainAdd(ops[i]) ==> ops[i].path != [];
    ExecKeepsObject(ops, o);
  }

  /** Every null in the original is away from the patched paths: neither on one, nor above,
      nor below. */
  ghost predicate NullsUntouched(ops: seq<Op>, o: Json)
  {
    forall q: Path, i | Lookup(o, q) == Some(Null) && 0 <= i < |ops| :: Disjoint(ops[i].path, q)
  }

  lemma TouchedNullIsGone(ops: seq<Op>, o: Json, q: Path, i: nat)
    requires PlainPatch(ops) && Exec(ops, o).Ok? && i < |ops| && !Disjoint(ops[i].path, q)
    ensures Lookup(Exec(ops, o).value, q) != Some(Null)
  {
    var m := Exec(ops, o).value;
    PlainPath(ops, o, q, i);
    assert PlainAdd(ops[i]);
    if q < ops[i].path { LookupPrefix(m, q, ops[i].path); }
  }

  /** The original shares its nulls with the patched document exactly when none is touched. */
  lemma NullsSharedIffUntouched(ops: seq<Op>, o: Json)
    requires PlainPatch(ops) && o.Obj? && Exec(ops, o).Ok?
    ensures NullsShared(Exec(ops, o).value, o) <==> NullsUntouched(ops, o)
  {
    var m := Exec(ops, o).value;
    NullsSharedByPath(m, o);
    if NullsShared(m, o) {
      forall q: Path, i | Lookup(o, q) == Some(Null) && 0 <= i < |ops| ensures Disjoint(ops[i].path, q) {
        assert q != [];
        if !Disjoint(ops[i].path, q) { TouchedNullIsGone(ops, o, q, i); }
      }
    }
    if NullsUntouched(ops, o) {
      forall q: Path | q != [] && Lookup(o, q) == Some(Null) ensures Lookup(m, q) == Some(Null) {
        ExecKeepsDisjoint(ops, o, q);
      }
    }
  }

  /** A plain patch that applies is undone exactly if and only if it touches no null of the
      original. */
  lemma PlainPatchIsRestorableIff(ops: seq<Op>, o: Json)
    requires PlainPatch(ops) && o.Obj? && !IsControlled(o) && Exec(ops, o).Ok?
    ensures Restorable(ops, o) <==> NullsUntouched(ops, o)
  {
    var m := Exec(ops, o).value;
    PlainKeepsObject(ops, o);
    ExecIdempotent(ops, o);
    PlainAddsNoNull(ops, o);
    PlainDeletesNothing(ops, o);
    ForwardIsNullFree(o, m);
    NullsSharedIffUntouched(ops, o);
  }

  // ---------------------------------------------------------------- when plain patches apply

  /** No step of the path could make a missing parent an array. */
  predicate NoArraySteps(p: Path)
  {
    forall n | 0 < n < |p| :: !IsArrayStep(p[n])
  }

  /** An add elsewhere changes nothing about where an add can go. */
  lemma AddableAfter(doc: Json, op: Op, p: Path)
    requires op.Add? && AddAt(doc, op.path, op.value).Ok? && Disjoint(op.path, p) && NoArraySteps(p)
    ensures Addable(AddAt(doc, op.path, op.value).value, p) <==> Addable(doc, p)
  {
    var next := AddAt(doc, op.path, op.value).value;
    AddAppliesIff(doc, op.path, op.value);
    OpSettles(op, doc);
    forall n | 0 <= n < |p| ensures AddableAt(next, p, n) <==> AddableAt(doc, p, n) {
      var q := p[..n];
      if Disjoint(op.path, q) {
        OpKeepsDisjoint(op, doc, q);
      } else {
        PrefixOfBoth(op.path, p, n);
        LookupPrefix(next, q, op.path);
        assert AddableAt(doc, op.path, n);
      }
    }
  }

  /** A prefix of one of two disjoint paths that is not disjoint from the other is a prefix of
      both. */
  lemma PrefixOfBoth(p: Path, q: Path, n: nat)
    requires Disjoint(p, q) && n < |q| && !Disjoint(p, q[..n])
    ensures n < |p| && p[..n] == q[..n] && q[..n] < p
  {
  }

  /** A list of adds at disjoint paths applies exactly when each of them does by itself. */
  lemma {:induction false} AddsApplyIff(ops: seq<Op>, o: Json)
    requires PairwiseDisjoint(ops) && forall i | 0 <= i < |ops| :: ops[i].Add? && NoArraySteps(ops[i].path)
    ensures Exec(ops, o).Ok? <==> forall i | 0 <= i < |ops| :: Addable(o, ops[i].path)
    decreases |ops|
  {
    if ops != [] {
      var rest := ops[1..];
      AddAppliesIff(o, ops[0].path, ops[0].value);
      assert forall i | 0 <= i < |rest| :: rest[i] == ops[i + 1];
      if AddAt(o, ops[0].path, ops[0].value).Ok? {
        var next := AddAt(o, ops[0].path, ops[0].value).value;
        AddsApplyIff(rest, next);
        forall i | 0 <= i < |rest| ensures Addable(next, rest[i].path) <==> Addable(o, ops[i + 1].path) {
          AddableAfter(o, ops[0], rest[i].path);
        }
        assert (forall i | 0 <= i < |rest| :: Addable(next, rest[i].path)) <==> (forall i | 0 < i < |ops| :: Addable(o, ops[i].path)) by {
          if forall i | 0 <= i < |rest| :: Addable(next, rest[i].path) {
            forall i | 0 < i < |ops| ensures Addable(o, ops[i].path) { assert Addable(next, rest[i - 1].path); }
          }
        }
      }
    }
  }

  /** There is an object to write into, or room for one. */
  predicate HasRoom(value: Option<Json>) { value.None? || value.value.Null? || value.value.Obj? }

  /** A patch of one field of the spec applies exactly when the spec is absent, null or an
      object, and then the field has its value. */
  lemma SpecPatchApplies(field: string, value: Json, o: Json)
    requires o.Obj? && !IsArrayStep(field)
    ensures var ops := [Add(["spec", field], value)];
            && (Exec(ops, o).Ok? <==> HasRoom(Lookup(o, ["spec"])))
            && (Exec(ops, o).Ok? ==> Lookup(Exec(ops, o).value, ["spec", field]) == Some(value))
  {
    var p: Path := ["spec", field];
    var ops := [Add(p, value)];
    AddsApplyIff(ops, o);
    assert ops[0].path == p && p[..0] == [] && p[..1] == ["spec"];
    assert AddableAt(o, p, 0);
    assert AddableAt(o, p, 1) <==> HasRoom(Lookup(o, ["spec"]));
    assert Addable(o, p) <==> HasRoom(Lookup(o, ["spec"]));
    if Exec(ops, o).Ok? {
      ExecSettlesAll(ops, o);
      assert Settled(ops[0], Exec(ops, o).value);
    }
  }

  // ---------------------------------------------------------------- the default patches

  const REPLICAS: Path := ["spec", "replicas"]
  const SUSPEND: Path := ["spec", "suspend"]

  /** Deployments and StatefulSets go to zero replicas. */
  const SCALE_TO_ZERO: seq<Op> := [Add(REPLICAS, Num(0.0))]

  /** CronJobs are suspended. */
  const SUSPEND_JOBS: seq<Op> := [Add(SUSPEND, Bool(true))]

  lemma SpecPathIsFree(field: string, value: Json)
    requires !value.Obj? && !value.Null?
    ensures PlainPatch([Add(["spec", field], value)])
  {
    var p: Path := ["spec", field];
    forall q: Path | ProtectedPath(q) ensures Disjoint(p, q) {
      assert p[0] == "spec" && |q| >= 1 && (q[0] == "metadata" || q[0] == "apiVersion" || q[0] == "kind");
      assert "spec"[0] == 's' && "metadata"[0] == 'm' && "apiVersion"[0] == 'a' && "kind"[0] == 'k';
    }
  }

  lemma NoNullBelow(doc: Json, p: Path, q: Path)
    requires p <= q && NoNullAt(doc, p)
    ensures Lookup(doc, q) != Some(Null)
  {
    if Lookup(doc, p).Some? {
      assert q == p + q[|p|..];
      LookupAppend(doc, p, q[|p|..]);
      NullFreeHasNone(Lookup(doc, p).value, q[|p|..]);
    } else if p != q && Lookup(doc, q).Some? {
      LookupPrefix(doc, p, q);
    }
  }

  lemma {:induction false} NullFreeHasNone(v: Json, q: Path)
    requires NullFree(v) && !v.Null?
    ensures Lookup(v, q) != Some(Null)
    decreases |q|
  {
    if q != [] && v.Obj? && q[0] in v.members {
      NullFreeHasNone(v.members[q[0]], q[1..]);
    }
  }

  /** The default patches apply to every object whose spec is absent, null or an object, and
      set replicas to zero and suspend to true. */
  lemma DefaultPatchesApply(o: Json)
    requires o.Obj?
    ensures Exec(SCALE_TO_ZERO, o).Ok? <==> HasRoom(Lookup(o, ["spec"]))
    ensures Exec(SUSPEND_JOBS, o).Ok? <==> HasRoom(Lookup(o, ["spec"]))
    ensures Exec(SCALE_TO_ZERO, o).Ok? ==> Lookup(Exec(SCALE_TO_ZERO, o).value, ["spec", "replicas"]) == Some(Num(0.0))
    ensures Exec(SUSPEND_JOBS, o).Ok? ==> Lookup(Exec(SUSPEND_JOBS, o).value, ["spec", "suspend"]) == Some(Bool(true))
  {
    assert !IsDigit("replicas"[0]) && !IsDigit("suspend"[0]);
    SpecPatchApplies("replicas", Num(0.0), o);
    SpecPatchApplies("suspend", Bool(true), o);
  }

  /** The value at a path, if any, is neither null nor holds one. */
  predicate NoNullAt(doc: Json, p: Path)
  {
    Lookup(doc, p).Some? ==> !Lookup(doc, p).value.Null? && NullFree(Lookup(doc, p).value)
  }

  /** For a patch of one field of the spec: no null in the field, and the spec is not null. */
  lemma SpecFieldUntouchedIff(field: string, value: Json, o: Json)
    requires o.Obj?
    ensures NullsUntouched([Add(["spec", field], value)], o) <==> Lookup(o, ["spec"]) != Some(Null) && NoNullAt(o, ["spec", field])
  {
    var ops := [Add(["spec", field], value)];
    var p: Path := ["spec", field];
    assert ops[0].path == p;
    assert !Disjoint(p, ["spec"]) by { assert ["spec"] <= p; }
    if NoNullAt(o, p) && Lookup(o, ["spec"]) != Some(Null) {
      forall q: Path | !Disjoint(p, q) ensures Lookup(o, q) != Some(Null) {
        if p <= q { NoNullBelow(o, p, q); } else { assert q == [] || q == ["spec"]; }
      }
    }
    if NullsUntouched(ops, o) && Lookup(o, p).Some? {
      var v := Lookup(o, p).value;
      assert !Disjoint(p, p);
      forall q: Path ensures Lookup(v, q) != Some(Null) {
        LookupAppend(o, p, q);
        assert !Disjoint(ops[0].path, p + q);
      }
      NoNullAnywhere(v);
    }
  }

  /** Every default patch that applies is undone exactly if and only if neither the spec nor
      the patched field is null. */
  lemma DefaultPatchesAreRestorableIff(o: Json)
    requires o.Obj? && !IsControlled(o)
    ensures PlainPatch(SCALE_TO_ZERO) && PlainPatch(SUSPEND_JOBS)
    ensures Exec(SCALE_TO_ZERO, o).Ok? ==>
              (Restorable(SCALE_TO_ZERO, o) <==> Lookup(o, ["spec"]) != Some(Null) && NoNullAt(o, REPLICAS))
    ensures Exec(SUSPEND_JOBS, o).Ok? ==>
              (Restorable(SUSPEND_JOBS, o) <==> Lookup(o, ["spec"]) != Some(Null) && NoNullAt(o, SUSPEND))
  {
    SpecPathIsFree("replicas", Num(0.0));
    SpecPathIsFree("suspend", Bool(true));
    SpecFieldUntouchedIff("replicas", Num(0.0), o);
    SpecFieldUntouchedIff("suspend", Bool(true), o);
    if Exec(SCALE_TO_ZERO, o).Ok? { PlainPatchIsRestorableIff(SCALE_TO_ZERO, o); }
    if Exec(SUSPEND_JOBS, o).Ok? { PlainPatchIsRestorableIff(SUSPEND_JOBS, o); }
  }

  // ---------------------------------------------------------------- the hypotheses are needed

  /** An original with a null on the patched path is not brought back: it wakes without
      the member. */
  lemma NullOriginalIsNotRestored()
    ensures var o := Obj(map["a" := Null]); var m := Obj(map["a" := Num(0.0)]);
            && Exec([Add(["a"], Num(0.0))], o) == Ok(m)
            && Merge(m, Obj(Diff(m, o))) != o
  {
    var o, m := Obj(map["a" := Null]), Obj(map["a" := Num(0.0)]);
    assert map["a" := Null]["a" := Num(0.0)] == map["a" := Num(0.0)];
    RoundTripIff(m, o);
    assert "a" in o.members && o.members["a"].Null? && !m.members["a"].Null?;
  }
}
