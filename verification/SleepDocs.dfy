/** What Sleep and WakeUp do to one resource, and when waking undoes sleeping. */
module SleepDocs {
  import opened JsonDocs
  import opened MergePaths
  import opened Patcher
  import opened ApiObjects

  /** The outcome of Sleep on a resource: left alone; an error, which when the server refuses
      comes after the restore patch was kept; or a change with the restore patch to keep and
      the sparse object to apply. */
  datatype SleepEffect = Skip | Fail(kept: Option<Object>) | Change(restore: Object, sparse: Object)

  function SleepEffectOn(ops: seq<Op>, doc: Json): SleepEffect
    requires doc.Obj?
  {
    if IsControlled(doc) then Skip
    else
      match Exec(ops, doc)
      case Err(_) => Skip
      case Ok(modified) =>
        if !modified.Obj? then Fail(None)
        else
          var restore := Diff(modified, doc);
          if restore == map[] then Skip
          else
            var sparse := Sparse(doc, Diff(doc, modified));
            // the server refuses an object that carries no name
            if Name(Obj(sparse)) == "" then Fail(Some(restore)) else Change(restore, sparse)
  }

  /** The outcome of WakeUp on a resource: left alone, an error, or a restored document
      to push. */
  datatype WakeEffect = Leave | Refuse | Push(restored: Json)

  function WakeEffectOn(ops: seq<Op>, saved: Option<Object>, doc: Json): WakeEffect
    requires doc.Obj?
  {
    match saved
    case None => Leave
    case Some(restore) =>
      match IsResourceChanged(ops, doc)
      case Err(_) => Leave
      case Ok(changed) =>
        if changed then Leave
        else
          var restored := Merge(doc, Obj(restore));
          // the server refuses to change what an object is identified by
          if !SameIdentifiers(doc, restored) then Refuse else Push(restored)
  }

  /** The document on the server afterwards. Server-side apply acts as a merge. */
  function SleepDoc(ops: seq<Op>, doc: Json): Json
    requires doc.Obj?
  {
    match SleepEffectOn(ops, doc)
    case Change(_, sparse) => Merge(doc, Obj(sparse))
    case _ => doc
  }

  function WakeDoc(ops: seq<Op>, saved: Option<Object>, doc: Json): Json
    requires doc.Obj?
  {
    match WakeEffectOn(ops, saved, doc)
    case Push(restored) => Merge(doc, Obj(Diff(doc, restored)))
    case _ => doc
  }

  /** The restore patch Sleep keeps, if it changes the resource at all. */
  function RestoreOf(ops: seq<Op>, doc: Json): Option<Object>
    requires doc.Obj?
  {
    match SleepEffectOn(ops, doc)
    case Change(restore, _) => Some(restore)
    case _ => None
  }

  // ---------------------------------------------------------------- hypotheses on a patch

  predicate ProtectedPath(p: Path)
  {
    p == API_VERSION || p == KIND || p == NAME || p == NAMESPACE || p == LABELS || p == OWNERS
  }

  /** The patch leaves identifiers, labels and owner references alone. */
  ghost predicate KeepsMetadata(ops: seq<Op>)
  {
    forall i, p | 0 <= i < |ops| && ProtectedPath(p) :: Disjoint(ops[i].path, p)
  }

  /** What sleeping `o` to `m` must satisfy for waking to bring `o` back: the patch is
      idempotent there, the forward change has no nulls (server-side apply is a merge only
      on those), and every null member of the original survives the patch. */
  predicate RestorableTo(ops: seq<Op>, o: Json, m: Json)
    requires o.Obj?
  {
    && m.Obj?
    && Exec(ops, m) == Ok(m)
    && NullFree(Obj(Diff(o, m)))
    && NullsShared(m, o)
  }

  predicate Restorable(ops: seq<Op>, o: Json)
    requires o.Obj?
  {
    !IsControlled(o) && Exec(ops, o).Ok? ==> RestorableTo(ops, o, Exec(ops, o).value)
  }

  lemma MetadataKept(ops: seq<Op>, o: Json)
    requires KeepsMetadata(ops) && Exec(ops, o).Ok?
    ensures var m := Exec(ops, o).value;
            && SameIdentifiers(o, m) && Lookup(o, LABELS) == Lookup(m, LABELS) && Lookup(o, OWNERS) == Lookup(m, OWNERS)
  {
    forall p | ProtectedPath(p) ensures Lookup(Exec(ops, o).value, p) == Lookup(o, p) {
      assert forall i | 0 <= i < |ops| :: Disjoint(ops[i].path, p);
      ExecKeepsDisjoint(ops, o, p);
    }
    assert ProtectedPath(API_VERSION) && ProtectedPath(KIND) && ProtectedPath(NAME);
    assert ProtectedPath(NAMESPACE) && ProtectedPath(LABELS) && ProtectedPath(OWNERS);
  }

  /** A patch that keeps metadata never makes Sleep fail on a resource. */
  lemma KeptMetadataDoesNotFail(ops: seq<Op>, o: Json)
    requires Identified(o) && KeepsMetadata(ops)
    ensures !SleepEffectOn(ops, o).Fail?
  {
    if Exec(ops, o).Ok? {
      var m := Exec(ops, o).value;
      MetadataKept(ops, o);
      forall i | 0 <= i < |ops| ensures ops[i].path != [] {
        assert ProtectedPath(KIND);
        assert Disjoint(ops[i].path, KIND);
      }
      ExecKeepsObject(ops, o);
      SameIdentifiersIdentified(o, m);
      ChangedMeta(o, m);
      SparseName(o, Diff(o, m));
    }
  }

  /** A difference without nulls deletes nothing and writes no null. */
  lemma {:induction false} NullFreeDiffSharesNulls(a: Json, b: Json)
    requires a.Obj? && b.Obj? && NullFree(Obj(Diff(a, b)))
    ensures NullsShared(a, b)
    decreases b
  {
    forall k | k in b.members
      ensures b.members[k].Null? ==> k in a.members && a.members[k].Null?
      ensures NullsShared(MemberOr(a.members, k), b.members[k])
    {
      DiffMember(a, b, k);
      if k in a.members && a.members[k].Obj? && b.members[k].Obj? {
        DiffEmptyIff(a.members[k], b.members[k]);
        NullFreeDiffSharesNulls(a.members[k], b.members[k]);
      } else if k in Diff(a, b) {
        NullFreeSharesNulls(MemberOr(a.members, k), b.members[k]);
      }
    }
  }

  // ---------------------------------------------------------------- sleep, then wake

  /** Sleeping gives exactly the patched document. */
  lemma SleepGivesPatched(ops: seq<Op>, o: Json)
    requires Identified(o) && KeepsMetadata(ops) && Restorable(ops, o)
    ensures !SleepEffectOn(ops, o).Fail?
    ensures !IsControlled(o) && Exec(ops, o).Ok? ==> SleepDoc(ops, o) == Exec(ops, o).value
    ensures SleepEffectOn(ops, o) == Skip ==> SleepDoc(ops, o) == o
  {
    if !IsControlled(o) && Exec(ops, o).Ok? {
      var m := Exec(ops, o).value;
      MetadataKept(ops, o);
      SameIdentifiersIdentified(o, m);
      DiffEmptyIff(m, o);
      NullFreeDiffSharesNulls(o, m);
      SparseIsExactIff(o, m);
      ChangedMeta(o, m);
      SparseShape(o, Diff(o, m));
      var s := Obj(Sparse(o, Diff(o, m)));
      Lookup2(s, "metadata", "name");
      Lookup1(s.members["metadata"], "name");
    }
  }

  /** Waking brings the original back exactly when the patch is idempotent on the slept
      document and every null member of the original is still in it. */
  lemma WakeRestoresIff(ops: seq<Op>, o: Json, m: Json)
    requires Identified(o) && m.Obj? && m != o && SameIdentifiers(o, m)
    ensures WakeDoc(ops, Some(Diff(m, o)), m) == o <==> Exec(ops, m) == Ok(m) && NullsShared(m, o)
  {
    RoundTripIff(m, o);
    MergedDocumentPushesExactly(m, Obj(Diff(m, o)));
  }

  /** The slept state of a restorable resource, and the way back. */
  lemma WakeUndoesSleep(ops: seq<Op>, o: Json)
    requires Identified(o) && KeepsMetadata(ops) && Restorable(ops, o)
    ensures var slept := SleepDoc(ops, o); var saved := RestoreOf(ops, o);
            && slept.Obj?
            && WakeEffectOn(ops, saved, slept) != Refuse
            && WakeDoc(ops, saved, slept) == o
            && SleepEffectOn(ops, slept) == Skip
            && Name(slept) == Name(o) && Lookup(slept, LABELS) == Lookup(o, LABELS)
            && Identified(slept)
            && (saved.Some? ==> Merge(slept, Obj(saved.value)) == o)
  {
    SleepGivesPatched(ops, o);
    if !IsControlled(o) && Exec(ops, o).Ok? {
      var m := Exec(ops, o).value;
      MetadataKept(ops, o);
      SameIdentifiersIdentified(o, m);
      DiffEmptyIff(m, m);
      if m != o {
        DiffEmptyIff(m, o);
        WakeRestoresIff(ops, o, m);
        RoundTripIff(m, o);
      }
    }
  }

  /** Sleeping what the patch already leaves unchanged does nothing and saves nothing. */
  lemma SleepOfFixpointSkips(ops: seq<Op>, doc: Json)
    requires doc.Obj? && Exec(ops, doc) == Ok(doc)
    ensures SleepEffectOn(ops, doc) == Skip && RestoreOf(ops, doc) == None && SleepDoc(ops, doc) == doc
  {
    DiffEmptyIff(doc, doc);
  }

  /** Waking changes a resource only with a restore patch and only at a fixpoint of the
      sleep patch. */
  lemma WakeChangesOnlyFixpoints(ops: seq<Op>, saved: Option<Object>, doc: Json)
    requires doc.Obj? && WakeDoc(ops, saved, doc) != doc
    ensures saved.Some? && Exec(ops, doc) == Ok(doc)
  {
  }

  /** A restore patch between documents with the same identifiers does not mention them. */
  lemma RestoreMissesIdentifiers(o: Json, m: Json)
    requires Identified(o) && m.Obj? && SameIdentifiers(o, m)
    ensures var r := Obj(Diff(m, o)); Misses(r, API_VERSION) && Misses(r, KIND) && Misses(r, NAME) && Misses(r, NAMESPACE)
  {
    SameIdentifiersIdentified(o, m);
    IdentifiedShape(o);
    IdentifiedShape(m);
    ChangedMeta(m, o);
    DiffMember(m, o, "apiVersion");
    DiffMember(m, o, "kind");
    DiffMember(m.members["metadata"], o.members["metadata"], "name");
    DiffMember(m.members["metadata"], o.members["metadata"], "namespace");
    assert NAME[1..] == ["name"] && NAMESPACE[1..] == ["namespace"];
  }

  lemma MergeKeepsIdentifiers(x: Json, r: Json)
    requires Misses(r, API_VERSION) && Misses(r, KIND) && Misses(r, NAME) && Misses(r, NAMESPACE)
    ensures SameIdentifiers(x, Merge(x, r))
  {
    MergeKeepsMissed(x, r, API_VERSION);
    MergeKeepsMissed(x, r, KIND);
    MergeKeepsMissed(x, r, NAME);
    MergeKeepsMissed(x, r, NAMESPACE);
  }

  lemma ChangeShape(ops: seq<Op>, o: Json)
    requires o.Obj? && RestoreOf(ops, o).Some?
    ensures !IsControlled(o) && Exec(ops, o).Ok? && Exec(ops, o).value.Obj?
    ensures RestoreOf(ops, o).value == Diff(Exec(ops, o).value, o)
  {
  }

  /** Waking a fixpoint of the patch with a restore patch that keeps the identifiers merges it. */
  lemma WakeMerges(ops: seq<Op>, restore: Object, x: Json)
    requires x.Obj? && Exec(ops, x) == Ok(x) && SameIdentifiers(x, Merge(x, Obj(restore)))
    ensures WakeDoc(ops, Some(restore), x) == Merge(x, Obj(restore))
  {
    MergedDocumentPushesExactly(x, Obj(restore));
  }

  /** Waking any fixpoint of the patch merges the restore patch into it. */
  lemma WakeOfFixpoint(ops: seq<Op>, o: Json, x: Json)
    requires Identified(o) && KeepsMetadata(ops) && Restorable(ops, o)
    requires RestoreOf(ops, o).Some?
    requires x.Obj? && Exec(ops, x) == Ok(x)
    ensures SleepDoc(ops, o).Obj? && NullsShared(SleepDoc(ops, o), o)
    ensures RestoreOf(ops, o).value == Diff(SleepDoc(ops, o), o)
    ensures WakeDoc(ops, RestoreOf(ops, o), x) == Merge(x, Obj(RestoreOf(ops, o).value))
  {
    ChangeShape(ops, o);
    SleepGivesPatched(ops, o);
    MetadataKept(ops, o);
    RestoreMissesIdentifiers(o, Exec(ops, o).value);
    MergeKeepsIdentifiers(x, Obj(RestoreOf(ops, o).value));
    WakeMerges(ops, RestoreOf(ops, o).value, x);
  }

  /** Edits made while asleep survive waking: whatever the current document `x` is, as long
      as the patch leaves it unchanged, every path `p` the restore patch hits gets its original
      value and every path it misses keeps its current one; and the restore patch hits every
      leaf the patch changed. */
  lemma WakeKeepsEdits(ops: seq<Op>, o: Json, x: Json, p: Path)
    requires Identified(o) && KeepsMetadata(ops) && Restorable(ops, o)
    requires RestoreOf(ops, o).Some?
    requires x.Obj? && Exec(ops, x) == Ok(x)
    ensures var restore := RestoreOf(ops, o); var y := WakeDoc(ops, restore, x);
            && (Hits(Obj(restore.value), p) ==> Lookup(y, p) == Lookup(o, p))
            && (Misses(Obj(restore.value), p) ==> Lookup(y, p) == Lookup(x, p))
            && (Lookup(SleepDoc(ops, o), p) != Lookup(o, p) && (Lookup(o, p).Some? ==> !Lookup(o, p).value.Obj?)
                ==> Hits(Obj(restore.value), p))
  {
    WakeOfFixpoint(ops, o, x);
    var m, r := SleepDoc(ops, o), RestoreOf(ops, o).value;
    if Hits(Obj(r), p) { DiffRestoresHit(m, o, x, p); }
    if Misses(Obj(r), p) { MergeKeepsMissed(x, Obj(r), p); }
    if Lookup(m, p) != Lookup(o, p) && (Lookup(o, p).Some? ==> !Lookup(o, p).value.Obj?) {
      ChangedLeafIsHit(m, o, p);
    }
  }
}
