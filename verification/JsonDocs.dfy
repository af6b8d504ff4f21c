/** JSON documents, the JSON Merge Patch algebra of section 2 of RFC 7396, and the
    document difference that produces merge patches. */
module JsonDocs {

  datatype Option<+T> = None | Some(value: T)

  datatype Json =
    | Null
    | Bool(b: bool)
    | Num(n: real)
    | Str(s: string)
    | Arr(items: seq<Json>)
    | Obj(members: map<string, Json>)

  type Object = map<string, Json>

  /** A JSON Pointer whose every step names an object member. */
  type Path = seq<string>

  function Lookup(doc: Json, p: Path): Option<Json>
    decreases |p|
  {
    if p == [] then Some(doc)
    else if doc.Obj? && p[0] in doc.members then Lookup(doc.members[p[0]], p[1..])
    else None
  }

  // ---------------------------------------------------------------- merge and diff

  function MembersOf(doc: Json): Object {
    if doc.Obj? then doc.members else map[]
  }

  function MemberOr(o: Object, k: string): Json {
    if k in o then o[k] else Null
  }

  function Merge(target: Json, patch: Json): Json
    decreases patch
  {
    if patch.Obj? then
      var t := MembersOf(target);
      Obj(map k | k in t.Keys + patch.members.Keys && !(k in patch.members && patch.members[k].Null?) ::
            if k in patch.members then Merge(MemberOr(t, k), patch.members[k]) else t[k])
    else
      patch
  }

  /** What the difference from `a` to `b` says about member `k`: nothing, a new value,
      a deletion (null), or a nested difference when it is not empty. */
  function DiffEntry(a: Json, b: Json, k: string): Option<Json>
    requires a.Obj? && b.Obj?
    decreases b, 0
  {
    if k !in b.members then
      if k in a.members then Some(Null) else None
    else if k !in a.members then
      Some(b.members[k])
    else if a.members[k].Obj? && b.members[k].Obj? then
      var nested := Diff(a.members[k], b.members[k]);
      if |nested| > 0 then Some(Obj(nested)) else None
    else if a.members[k] == b.members[k] then
      None
    else
      Some(b.members[k])
  }

  function Diff(a: Json, b: Json): Object
    requires a.Obj? && b.Obj?
    decreases b, 1
  {
    map k | k in a.members.Keys + b.members.Keys && DiffEntry(a, b, k).Some? :: DiffEntry(a, b, k).value
  }

  // ---------------------------------------------------------------- null members

  /** No object member reachable through objects is null. Array items are free: a
      merge patch replaces an array whole. */
  predicate NullFree(doc: Json)
  {
    doc.Obj? ==> forall k | k in doc.members :: !doc.members[k].Null? && NullFree(doc.members[k])
  }

  /** Every null member of `b` is a null member of `a` at the same path. */
  predicate NullsShared(a: Json, b: Json)
    decreases b
  {
    b.Obj? ==>
      forall k | k in b.members ::
        && (b.members[k].Null? ==> a.Obj? && k in a.members && a.members[k].Null?)
        && NullsShared(MemberOr(MembersOf(a), k), b.members[k])
  }

  lemma NullFreeSharesNulls(a: Json, b: Json)
    requires NullFree(b)
    ensures NullsShared(a, b)
    decreases b
  {
    if b.Obj? {
      forall k | k in b.members ensures NullsShared(MemberOr(MembersOf(a), k), b.members[k]) {
        NullFreeSharesNulls(MemberOr(MembersOf(a), k), b.members[k]);
      }
    }
  }

  lemma {:induction false} SharingWithNullIsNullFree(a: Json, b: Json)
    requires !a.Obj? && NullsShared(a, b)
    ensures NullFree(b)
    decreases b
  {
    if b.Obj? {
      forall k | k in b.members ensures NullFree(b.members[k]) {
        SharingWithNullIsNullFree(Null, b.members[k]);
      }
    }
  }

  // ---------------------------------------------------------------- round trip

  /** The difference is the empty patch exactly when the documents are equal. */
  lemma {:induction false} DiffEmptyIff(a: Json, b: Json)
    requires a.Obj? && b.Obj?
    ensures Diff(a, b) == map[] <==> a == b
    decreases b
  {
    forall k | k in a.members && k in b.members && a.members[k].Obj? && b.members[k].Obj?
      ensures Diff(a.members[k], b.members[k]) == map[] <==> a.members[k] == b.members[k]
    {
      DiffEmptyIff(a.members[k], b.members[k]);
    }
    if Diff(a, b) == map[] {
      forall k | k in a.members.Keys + b.members.Keys
        ensures k in a.members && k in b.members && a.members[k] == b.members[k]
      {
        assert k !in Diff(a, b);
      }
      assert a.members == b.members;
    }
    if a == b {
      assert forall k | k in a.members :: DiffEntry(a, b, k).None?;
    }
  }

  /** Merging into something that is not an object prunes nulls and nothing else. */
  lemma {:induction false} MergeIntoScalar(a: Json, b: Json)
    requires !a.Obj?
    ensures Merge(a, b) == b <==> NullFree(b)
    decreases b
  {
    if b.Obj? {
      forall k | k in b.members ensures Merge(Null, b.members[k]) == b.members[k] <==> NullFree(b.members[k]) {
        MergeIntoScalar(Null, b.members[k]);
      }
      var r := Merge(a, b);
      if NullFree(b) {
        assert r.members == b.members;
      }
      if r == b {
        forall k | k in b.members ensures !b.members[k].Null? && NullFree(b.members[k]) {
          assert k in r.members;
        }
      }
    }
  }

  lemma MergeMember(t: Json, p: Object, k: string)
    ensures var r := Merge(t, Obj(p)).members;
            && (k in p && p[k].Null? ==> k !in r)
            && (k in p && !p[k].Null? ==> k in r && r[k] == Merge(MemberOr(MembersOf(t), k), p[k]))
            && (k !in p ==> (k in r <==> k in MembersOf(t)) && MemberOr(r, k) == MemberOr(MembersOf(t), k))
  {
  }

  lemma DiffMember(a: Json, b: Json, k: string)
    requires a.Obj? && b.Obj?
    ensures k in Diff(a, b) <==> DiffEntry(a, b, k).Some?
    ensures k in Diff(a, b) ==> Diff(a, b)[k] == DiffEntry(a, b, k).value
  {
    assert DiffEntry(a, b, k).Some? ==> k in a.members.Keys + b.members.Keys;
  }

  /** The member `k` of `b` can be reached by a patch from `a`. */
  predicate MemberShared(a: Json, b: Json, k: string)
    requires a.Obj? && b.Obj? && k in b.members
  {
    && (b.members[k].Null? ==> k in a.members && a.members[k].Null?)
    && NullsShared(MemberOr(a.members, k), b.members[k])
  }

  /** What merging the difference does to one member. */
  lemma {:induction false} RoundTripMember(a: Json, b: Json, k: string)
    requires a.Obj? && b.Obj?
    requires k in b.members
    requires k in a.members && a.members[k].Obj? && b.members[k].Obj? ==>
               (Merge(a.members[k], Obj(Diff(a.members[k], b.members[k]))) == b.members[k]
                <==> NullsShared(a.members[k], b.members[k]))
    ensures var r := Merge(a, Obj(Diff(a, b))).members;
            (k in r && r[k] == b.members[k]) <==> MemberShared(a, b, k)
  {
    var d := Diff(a, b);
    var bk := b.members[k];
    var ak := MemberOr(a.members, k);
    DiffMember(a, b, k);
    MergeMember(a, d, k);
    if k in a.members && ak.Obj? && bk.Obj? {
      var nested := Diff(ak, bk);
      DiffEmptyIff(ak, bk);
      if nested == map[] {
        SharesOwnNulls(ak);
      }
    } else if k in a.members && ak == bk {
    } else if !ak.Obj? {
      MergeIntoScalar(ak, bk);
      if NullsShared(ak, bk) { SharingWithNullIsNullFree(ak, bk); }
      if NullFree(bk) { NullFreeSharesNulls(ak, bk); }
    }
  }

  /** Round trip: merging the difference from `a` to `b` into `a` gives exactly `b`
      if and only if every null member of `b` already is one of `a`. */
  lemma {:induction false} RoundTripIff(a: Json, b: Json)
    requires a.Obj? && b.Obj?
    ensures Merge(a, Obj(Diff(a, b))) == b <==> NullsShared(a, b)
    decreases b
  {
    var r := Merge(a, Obj(Diff(a, b))).members;
    forall k | k in b.members
      ensures (k in r && r[k] == b.members[k]) <==> MemberShared(a, b, k)
    {
      if k in a.members && a.members[k].Obj? && b.members[k].Obj? {
        RoundTripIff(a.members[k], b.members[k]);
      }
      RoundTripMember(a, b, k);
    }
    forall k | k in a.members && k !in b.members ensures k !in r {
      DiffMember(a, b, k);
      MergeMember(a, Diff(a, b), k);
    }
    if NullsShared(a, b) {
      assert r == b.members;
    }
  }

  /** Null-free targets are exactly the documents every document can be patched into. */
  lemma RoundTripFromEverywhereIff(b: Json)
    requires b.Obj?
    ensures (forall a: Json | a.Obj? :: Merge(a, Obj(Diff(a, b))) == b) <==> NullFree(b)
  {
    if NullFree(b) {
      forall a: Json | a.Obj? ensures Merge(a, Obj(Diff(a, b))) == b {
        NullFreeSharesNulls(a, b);
        RoundTripIff(a, b);
      }
    } else {
      var a := Obj(map[]);
      RoundTripIff(a, b);
      if NullsShared(a, b) {
        forall k | k in b.members ensures !b.members[k].Null? && NullFree(b.members[k]) {
          SharingWithNullIsNullFree(Null, b.members[k]);
        }
      }
      assert Merge(a, Obj(Diff(a, b))) != b;
    }
  }

  /** A merge never introduces a null member: those of the result were there before. */
  lemma {:induction false} MergeSharesNulls(x: Json, patch: Json)
    requires patch.Obj?
    ensures NullsShared(x, Merge(x, patch))
    decreases patch
  {
    var y := Merge(x, patch);
    forall k | k in y.members
      ensures y.members[k].Null? ==> x.Obj? && k in x.members && x.members[k].Null?
      ensures NullsShared(MemberOr(MembersOf(x), k), y.members[k])
    {
      if k in patch.members {
        assert y.members[k] == Merge(MemberOr(MembersOf(x), k), patch.members[k]);
        if patch.members[k].Obj? {
          MergeSharesNulls(MemberOr(MembersOf(x), k), patch.members[k]);
        }
      } else {
        SharesOwnNulls(x.members[k]);
      }
    }
  }

  lemma {:induction false} SharesOwnNulls(x: Json)
    ensures NullsShared(x, x)
  {
    if x.Obj? {
      forall k | k in x.members ensures NullsShared(x.members[k], x.members[k]) {
        SharesOwnNulls(x.members[k]);
      }
    }
  }

  /** Pushing a merged document back as a difference reproduces it exactly, nulls or not. */
  lemma MergedDocumentPushesExactly(x: Json, patch: Json)
    requires x.Obj? && patch.Obj?
    ensures Merge(x, Obj(Diff(x, Merge(x, patch)))) == Merge(x, patch)
  {
    MergeSharesNulls(x, patch);
    RoundTripIff(x, Merge(x, patch));
  }
}
