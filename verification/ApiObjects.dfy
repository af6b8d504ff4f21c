/** Cluster objects as documents: their identifiers, labels and controller, and the sparse
    object that carries a sleep patch to the server. */
module ApiObjects {
  import opened JsonDocs
  import opened MergePaths

  const API_VERSION: Path := ["apiVersion"]
  const KIND: Path := ["kind"]
  const NAME: Path := ["metadata", "name"]
  const NAMESPACE: Path := ["metadata", "namespace"]
  const LABELS: Path := ["metadata", "labels"]
  const OWNERS: Path := ["metadata", "ownerReferences"]

  /** The string at a path, empty when there is none. */
  function StringAt(doc: Json, p: Path): string
  {
    match Lookup(doc, p)
    case Some(Str(s)) => s
    case _ => ""
  }

  function Name(doc: Json): string { StringAt(doc, NAME) }

  predicate HasLabel(doc: Json, key: string, value: string)
  {
    match Lookup(doc, LABELS)
    case Some(Obj(labels)) => key in labels && labels[key] == Str(value)
    case _ => false
  }

  predicate IsControllerRef(ref: Json)
  {
    ref.Obj? && "controller" in ref.members && ref.members["controller"] == Bool(true)
  }

  /** Some owner reference says it is the managing controller. */
  predicate IsControlled(doc: Json)
  {
    match Lookup(doc, OWNERS)
    case Some(Arr(refs)) => exists i | 0 <= i < |refs| :: IsControllerRef(refs[i])
    case _ => false
  }

  /** The four identifiers are present, as every listed object has them. */
  predicate Identified(doc: Json)
  {
    doc.Obj? && StringAt(doc, API_VERSION) != "" && StringAt(doc, KIND) != ""
    && StringAt(doc, NAME) != "" && StringAt(doc, NAMESPACE) != ""
  }

  predicate SameIdentifiers(a: Json, b: Json)
  {
    && Lookup(a, API_VERSION) == Lookup(b, API_VERSION)
    && Lookup(a, KIND) == Lookup(b, KIND)
    && Lookup(a, NAME) == Lookup(b, NAME)
    && Lookup(a, NAMESPACE) == Lookup(b, NAMESPACE)
  }

  /** A label is a string member of metadata.labels. */
  lemma HasLabelIff(doc: Json, key: string, value: string)
    ensures HasLabel(doc, key, value) <==> Lookup(doc, ["metadata", "labels", key]) == Some(Str(value))
  {
    var p: Path := ["metadata", "labels", key];
    assert p[1..] == ["labels", key];
    Lookup2(doc, "metadata", "labels");
    if doc.Obj? && "metadata" in doc.members {
      var meta := doc.members["metadata"];
      Lookup1(meta, "labels");
      Lookup2(meta, "labels", key);
      if meta.Obj? && "labels" in meta.members { Lookup1(meta.members["labels"], key); }
    }
  }

  /** One more owner makes an object controlled exactly if that owner is a controller. */
  lemma OneMoreOwner(doc: Json, more: Json, refs: seq<Json>, ref: Object)
    requires Lookup(doc, ["metadata", "ownerReferences"]) == Some(Arr(refs))
    requires Lookup(more, ["metadata", "ownerReferences"]) == Some(Arr(refs + [Obj(ref)]))
    ensures IsControlled(more) <==> IsControlled(doc) || ("controller" in ref && ref["controller"] == Bool(true))
  {
    var all := refs + [Obj(ref)];
    assert all[|refs|] == Obj(ref);
    assert forall i | 0 <= i < |refs| :: all[i] == refs[i];
  }

  /** Without owners there is no controller. */
  lemma NoOwnerNoController(doc: Json)
    requires var owners := Lookup(doc, ["metadata", "ownerReferences"]); owners.None? || owners.value == Arr([])
    ensures !IsControlled(doc)
  {
  }

  // ---------------------------------------------------------------- the sparse object

  /** Sets a metadata string; an empty one is removed, and metadata that is not an object
      is left as it is. */
  function SetMeta(o: Object, field: string, value: string): Object
  {
    if "metadata" !in o then
      if value == "" then o else o["metadata" := Obj(map[field := Str(value)])]
    else if o["metadata"].Obj? then
      var meta := o["metadata"].members;
      o["metadata" := Obj(if value == "" then meta - {field} else meta[field := Str(value)])]
    else o
  }

  /** The changed fields and the identifiers of the resource, nothing else. */
  function Sparse(resource: Json, changes: Object): Object
  {
    var typed := changes["apiVersion" := Str(StringAt(resource, API_VERSION))]["kind" := Str(StringAt(resource, KIND))];
    SetMeta(SetMeta(typed, "name", StringAt(resource, NAME)), "namespace", StringAt(resource, NAMESPACE))
  }

  /** Builds the sparse object field by field, in any field order. */
  method BuildSparseApplyObject(resource: Json, changes: Object) returns (sparse: Object)
    ensures sparse == Sparse(resource, changes)
  {
    sparse := map[];
    var todo := changes.Keys;
    while todo != {}
      invariant todo <= changes.Keys
      invariant sparse == map k | k in changes && k !in todo :: changes[k]
      decreases |todo|
    {
      var key :| key in todo;
      sparse := sparse[key := changes[key]];
      todo := todo - {key};
    }
    assert sparse == changes;
    sparse := sparse["apiVersion" := Str(StringAt(resource, API_VERSION))];
    sparse := sparse["kind" := Str(StringAt(resource, KIND))];
    sparse := SetMeta(sparse, "name", Name(resource));
    sparse := SetMeta(sparse, "namespace", StringAt(resource, NAMESPACE));
  }

  lemma SameMembers(a: Object, b: Object)
    requires forall q :: (q in a <==> q in b) && (q in a ==> a[q] == b[q])
    ensures a == b
  {
  }

  lemma MergeRestatedAt(x: Json, d: Object, k: string, v: Json, q: string)
    requires !v.Null?
    requires var r := Merge(x, Obj(d)).members; k in r && r[k] == Merge(MemberOr(MembersOf(x), k), v)
    ensures var r, r' := Merge(x, Obj(d)).members, Merge(x, Obj(d[k := v])).members;
            (q in r <==> q in r') && (q in r ==> r[q] == r'[q])
  {
    MergeMember(x, d, q);
    MergeMember(x, d[k := v], q);
  }

  /** Restating in a patch a value the merge produces anyway does not change the merge. */
  lemma MergeRestated(x: Json, d: Object, k: string, v: Json)
    requires !v.Null?
    requires var r := Merge(x, Obj(d)).members; k in r && r[k] == Merge(MemberOr(MembersOf(x), k), v)
    ensures Merge(x, Obj(d[k := v])) == Merge(x, Obj(d))
  {
    var r, r' := Merge(x, Obj(d)).members, Merge(x, Obj(d[k := v])).members;
    forall q ensures (q in r <==> q in r') && (q in r ==> r[q] == r'[q]) {
      MergeRestatedAt(x, d, k, v, q);
    }
    SameMembers(r, r');
  }

  lemma StringLookup(doc: Json, p: Path)
    requires StringAt(doc, p) != ""
    ensures Lookup(doc, p) == Some(Str(StringAt(doc, p)))
  {
  }

  lemma Lookup1(doc: Json, a: string)
    ensures Lookup(doc, [a]) == if doc.Obj? && a in doc.members then Some(doc.members[a]) else None
  {
    assert [a][1..] == [];
  }

  lemma Lookup2(doc: Json, a: string, b: string)
    ensures Lookup(doc, [a, b]) ==
            if doc.Obj? && a in doc.members then Lookup(doc.members[a], [b]) else None
  {
    assert [a, b][1..] == [b];
  }

  /** The shape of an identified document. */
  lemma IdentifiedShape(doc: Json)
    requires Identified(doc)
    ensures "apiVersion" in doc.members && doc.members["apiVersion"] == Str(StringAt(doc, API_VERSION))
    ensures "kind" in doc.members && doc.members["kind"] == Str(StringAt(doc, KIND))
    ensures "metadata" in doc.members && doc.members["metadata"].Obj?
    ensures var meta := doc.members["metadata"].members;
            && "name" in meta && meta["name"] == Str(Name(doc))
            && "namespace" in meta && meta["namespace"] == Str(StringAt(doc, NAMESPACE))
  {
    StringLookup(doc, API_VERSION);
    StringLookup(doc, KIND);
    StringLookup(doc, NAME);
    StringLookup(doc, NAMESPACE);
    Lookup1(doc, "apiVersion");
    Lookup1(doc, "kind");
    Lookup2(doc, "metadata", "name");
    Lookup2(doc, "metadata", "namespace");
    Lookup1(doc.members["metadata"], "name");
    Lookup1(doc.members["metadata"], "namespace");
  }

  lemma SameIdentifiersIdentified(a: Json, b: Json)
    requires Identified(a) && SameIdentifiers(a, b) && b.Obj?
    ensures Identified(b)
    ensures forall p | p in {API_VERSION, KIND, NAME, NAMESPACE} :: StringAt(a, p) == StringAt(b, p)
  {
  }

  /** The metadata member of the sparse object, given that of the changes. */
  function SparseMeta(resource: Json, meta: Object): Object {
    meta["name" := Str(Name(resource))]["namespace" := Str(StringAt(resource, NAMESPACE))]
  }

  lemma SparseShape(resource: Json, changes: Object)
    requires Identified(resource)
    requires "metadata" in changes ==> changes["metadata"].Obj?
    ensures Sparse(resource, changes) ==
            changes["apiVersion" := Str(StringAt(resource, API_VERSION))]["kind" := Str(StringAt(resource, KIND))]
                   ["metadata" := Obj(SparseMeta(resource, MembersOf(MemberOr(changes, "metadata"))))]
  {
    var typed := changes["apiVersion" := Str(StringAt(resource, API_VERSION))]["kind" := Str(StringAt(resource, KIND))];
    assert MemberOr(typed, "metadata") == MemberOr(changes, "metadata");
    var named := SetMeta(typed, "name", Name(resource));
    if "metadata" !in changes {
      assert map["name" := Str(Name(resource))] == map[]["name" := Str(Name(resource))];
    }
    assert SetMeta(named, "namespace", StringAt(resource, NAMESPACE))["metadata"].members
        == SparseMeta(resource, MembersOf(MemberOr(changes, "metadata")));
  }

  /** Metadata of the changes between two documents that both have some. */
  lemma ChangedMeta(o: Json, m: Json)
    requires Identified(o) && Identified(m)
    ensures var d := Diff(o, m); var meta := MembersOf(MemberOr(d, "metadata"));
            && ("metadata" in d ==> d["metadata"].Obj?)
            && meta == Diff(o.members["metadata"], m.members["metadata"])
  {
    IdentifiedShape(o);
    IdentifiedShape(m);
    DiffMember(o, m, "metadata");
  }

  /** Stating in a patch a string the document has, and the patch does not mention, changes nothing. */
  lemma MergeOwnString(x: Json, d: Object, k: string)
    requires x.Obj? && k in x.members && x.members[k].Str? && k !in d
    ensures Merge(x, Obj(d[k := x.members[k]])) == Merge(x, Obj(d))
  {
    MergeMember(x, d, k);
    MergeRestated(x, d, k, x.members[k]);
  }

  lemma SparseMetaMerges(o: Json, m: Json)
    requires Identified(o) && Identified(m) && SameIdentifiers(o, m)
    ensures var om, dm := o.members["metadata"], Diff(o.members["metadata"], m.members["metadata"]);
            Merge(om, Obj(SparseMeta(o, dm))) == Merge(om, Obj(dm))
  {
    IdentifiedShape(o);
    IdentifiedShape(m);
    var om, mm := o.members["metadata"], m.members["metadata"];
    var dm := Diff(om, mm);
    DiffMember(om, mm, "name");
    DiffMember(om, mm, "namespace");
    MergeOwnString(om, dm, "name");
    MergeOwnString(om, dm["name" := om.members["name"]], "namespace");
  }

  lemma SparseMetadataMerges(o: Json, m: Json, d: Object)
    requires Identified(o) && Identified(m) && SameIdentifiers(o, m)
    requires "metadata" in d <==> "metadata" in Diff(o, m)
    requires "metadata" in d ==> d["metadata"] == Diff(o, m)["metadata"]
    ensures Merge(o, Obj(d["metadata" := Obj(SparseMeta(o, Diff(o.members["metadata"], m.members["metadata"])))])) == Merge(o, Obj(d))
  {
    IdentifiedShape(o);
    IdentifiedShape(m);
    var om, dm := o.members["metadata"], Diff(o.members["metadata"], m.members["metadata"]);
    DiffMember(o, m, "metadata");
    MergeMember(o, d, "metadata");
    SparseMetaMerges(o, m);
    if "metadata" !in d {
      DiffEmptyIff(om, m.members["metadata"]);
      RoundTripIff(om, om);
      SharesOwnNulls(om);
      DiffEmptyIff(om, om);
    }
    MergeRestated(o, d, "metadata", Obj(SparseMeta(o, dm)));
  }

  /** Applying the sparse object is merging the difference. */
  lemma SparseMerges(o: Json, m: Json)
    requires Identified(o) && m.Obj? && SameIdentifiers(o, m)
    ensures Merge(o, Obj(Sparse(o, Diff(o, m)))) == Merge(o, Obj(Diff(o, m)))
  {
    SameIdentifiersIdentified(o, m);
    IdentifiedShape(o);
    IdentifiedShape(m);
    ChangedMeta(o, m);
    var d := Diff(o, m);
    var d1 := d["apiVersion" := o.members["apiVersion"]];
    DiffMember(o, m, "apiVersion");
    DiffMember(o, m, "kind");
    SparseShape(o, d);
    MergeOwnString(o, d, "apiVersion");
    MergeOwnString(o, d1, "kind");
    SparseMetadataMerges(o, m, d1["kind" := o.members["kind"]]);
  }

  /** Exactness: with the identifiers left alone, merging the sparse object into the original
      gives the modified document exactly when every null in it was there before. */
  lemma SparseIsExactIff(o: Json, m: Json)
    requires Identified(o) && m.Obj? && SameIdentifiers(o, m)
    ensures Merge(o, Obj(Sparse(o, Diff(o, m)))) == m <==> NullsShared(o, m)
  {
    SparseMerges(o, m);
    RoundTripIff(o, m);
  }

  predicate IsIdentifierPath(p: Path)
  {
    p == API_VERSION || p == KIND || p == ["metadata"] || p == NAME || p == NAMESPACE
  }

  lemma SparseMetaAddsOnlyIdentifiers(o: Json, meta: Object, q: Path)
    requires Identified(o) && q != [] && q != ["name"] && q != ["namespace"]
    requires Lookup(Obj(SparseMeta(o, meta)), q).Some?
    ensures Lookup(Obj(meta), q).Some?
  {
    assert q == [q[0]] + q[1..];
  }

  lemma SparseAddsOnlyIdentifiers(o: Json, changes: Object, p: Path)
    requires Identified(o) && p != [] && !IsIdentifierPath(p)
    requires "metadata" in changes ==> changes["metadata"].Obj?
    requires Lookup(Obj(Sparse(o, changes)), p).Some?
    ensures Lookup(Obj(changes), p).Some?
  {
    SparseShape(o, changes);
    assert p == [p[0]] + p[1..];
    if p[0] == "metadata" {
      SparseMetaAddsOnlyIdentifiers(o, MembersOf(MemberOr(changes, "metadata")), p[1..]);
    }
  }

  /** Minimality: apart from the identifiers, every path of the sparse object is one at
      which the original and the modified document differ. */
  lemma SparseIsMinimal(o: Json, m: Json, p: Path)
    requires Identified(o) && m.Obj? && SameIdentifiers(o, m)
    requires p != [] && !IsIdentifierPath(p)
    requires Lookup(Obj(Sparse(o, Diff(o, m))), p).Some?
    ensures Lookup(o, p) != Lookup(m, p)
  {
    SameIdentifiersIdentified(o, m);
    ChangedMeta(o, m);
    SparseAddsOnlyIdentifiers(o, Diff(o, m), p);
    DiffMentionsOnlyChanges(o, m, p);
  }

  /** Either the sparse object carries the resource's own name, or none. */
  lemma SparseName(o: Json, changes: Object)
    requires Identified(o)
    ensures var n := Name(Obj(Sparse(o, changes)));
            (n == Name(o) && ("metadata" in changes ==> changes["metadata"].Obj?))
            || (n == "" && "metadata" in changes && !changes["metadata"].Obj?)
  {
    var s := Obj(Sparse(o, changes));
    Lookup2(s, "metadata", "name");
    if "metadata" in changes && !changes["metadata"].Obj? {
      assert s.members["metadata"] == changes["metadata"];
    } else {
      SparseShape(o, changes);
      Lookup1(s.members["metadata"], "name");
    }
  }

  /** The document has a value at the path that is neither an object nor null. */
  predicate GivesLeaf(doc: Json, p: Path)
  {
    Lookup(doc, p).Some? && !Lookup(doc, p).value.Null? && !Lookup(doc, p).value.Obj?
  }

  lemma {:induction false} MergeWritesLeaf(x: Json, patch: Json, p: Path)
    requires GivesLeaf(patch, p)
    ensures Lookup(Merge(x, patch), p) == Lookup(patch, p)
    decreases |p|
  {
    if p != [] {
      assert GivesLeaf(patch.members[p[0]], p[1..]);
      MergeMember(x, patch.members, p[0]);
      MergeWritesLeaf(MemberOr(MembersOf(x), p[0]), patch.members[p[0]], p[1..]);
    }
  }

  /** Whatever the changes are, an object applied under its own name keeps its identifiers. */
  lemma SparseKeepsIdentity(o: Json, server: Json, changes: Object)
    requires Identified(o) && Name(Obj(Sparse(o, changes))) != ""
    ensures var r := Merge(server, Obj(Sparse(o, changes))); Identified(r) && Name(r) == Name(o)
  {
    SparseName(o, changes);
    SparseShape(o, changes);
    var s := Obj(Sparse(o, changes));
    Lookup1(s, "apiVersion");
    Lookup1(s, "kind");
    Lookup2(s, "metadata", "name");
    Lookup2(s, "metadata", "namespace");
    Lookup1(s.members["metadata"], "name");
    Lookup1(s.members["metadata"], "namespace");
    MergeWritesLeaf(server, s, API_VERSION);
    MergeWritesLeaf(server, s, KIND);
    MergeWritesLeaf(server, s, NAME);
    MergeWritesLeaf(server, s, NAMESPACE);
  }
}
