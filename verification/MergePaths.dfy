/** Which paths a merge patch reads, replaces and leaves alone. */
module MergePaths {
  import opened JsonDocs

  /** The patch replaces or deletes the value at `p` or at a path above it. */
  predicate Hits(patch: Json, p: Path)
    decreases |p|
  {
    !patch.Obj? || (p != [] && p[0] in patch.members && Hits(patch.members[p[0]], p[1..]))
  }

  /** The patch says nothing at `p`, above it or below it. */
  predicate Misses(patch: Json, p: Path)
    decreases |p|
  {
    patch.Obj? && p != [] && (p[0] in patch.members ==> Misses(patch.members[p[0]], p[1..]))
  }

  /** A merge leaves every path its patch misses at its current value. */
  lemma {:induction false} MergeKeepsMissed(x: Json, patch: Json, p: Path)
    requires Misses(patch, p)
    ensures Lookup(Merge(x, patch), p) == Lookup(x, p)
    decreases |p|
  {
    var k := p[0];
    MergeMember(x, patch.members, k);
    if k in patch.members {
      MergeKeepsMissed(MemberOr(MembersOf(x), k), patch.members[k], p[1..]);
    }
  }

  /** A null-free value arrives whole wherever it has something to say. */
  lemma {:induction false} MergeWritesHit(x: Json, v: Json, p: Path)
    requires NullFree(v) && Hits(v, p)
    ensures Lookup(Merge(x, v), p) == Lookup(v, p)
    decreases |p|
  {
    if v.Obj? {
      MergeMember(x, v.members, p[0]);
      MergeWritesHit(MemberOr(MembersOf(x), p[0]), v.members[p[0]], p[1..]);
    }
  }

  lemma {:induction false} LeafIsHit(v: Json, p: Path)
    requires Lookup(v, p).Some? && !Lookup(v, p).value.Obj?
    ensures Hits(v, p)
    decreases |p|
  {
    if p != [] { LeafIsHit(v.members[p[0]], p[1..]); }
  }

  /** The value one entry of a difference carries, when it is not a nested difference. */
  lemma {:induction false} EntryIsWholeValue(a: Json, b: Json, k: string)
    requires a.Obj? && b.Obj? && NullsShared(a, b) && k in Diff(a, b) && k in b.members
    requires !(k in a.members && a.members[k].Obj? && b.members[k].Obj?)
    ensures Diff(a, b)[k] == b.members[k] && !b.members[k].Null? && NullFree(b.members[k])
  {
    DiffMember(a, b, k);
    if b.members[k].Obj? {
      SharingWithNullIsNullFree(MemberOr(a.members, k), b.members[k]);
    }
  }

  /** Wherever the difference from `s` to `o` hits, merging it into any document at all
      gives the value of `o`. */
  lemma {:induction false} DiffRestoresHit(s: Json, o: Json, x: Json, p: Path)
    requires s.Obj? && o.Obj? && NullsShared(s, o)
    requires Hits(Obj(Diff(s, o)), p)
    ensures Lookup(Merge(x, Obj(Diff(s, o))), p) == Lookup(o, p)
    decreases |p|
  {
    var d := Diff(s, o);
    var k := p[0];
    DiffMember(s, o, k);
    MergeMember(x, d, k);
    var xk := MemberOr(MembersOf(x), k);
    if k in o.members {
      if k in s.members && s.members[k].Obj? && o.members[k].Obj? {
        DiffRestoresHit(s.members[k], o.members[k], xk, p[1..]);
      } else {
        EntryIsWholeValue(s, o, k);
        MergeWritesHit(xk, o.members[k], p[1..]);
      }
    }
  }

  /** Every path whose value in `o` is missing or not an object, and differs in `s`, is hit. */
  lemma {:induction false} ChangedLeafIsHit(s: Json, o: Json, p: Path)
    requires s.Obj? && o.Obj?
    requires Lookup(s, p) != Lookup(o, p)
    requires Lookup(o, p).Some? ==> !Lookup(o, p).value.Obj?
    ensures Hits(Obj(Diff(s, o)), p)
    decreases |p|
  {
    var k := p[0];
    DiffMember(s, o, k);
    if k in o.members {
      if k in s.members && s.members[k].Obj? && o.members[k].Obj? {
        DiffEmptyIff(s.members[k], o.members[k]);
        ChangedLeafIsHit(s.members[k], o.members[k], p[1..]);
      } else if Lookup(o, p).Some? {
        LeafIsHit(o.members[k], p[1..]);
      }
    }
  }

  /** Minimality: a difference mentions no path at which the documents agree. */
  lemma {:induction false} DiffMentionsOnlyChanges(a: Json, b: Json, p: Path)
    requires a.Obj? && b.Obj? && p != []
    requires Lookup(Obj(Diff(a, b)), p).Some?
    ensures Lookup(a, p) != Lookup(b, p)
    decreases |p|
  {
    var k := p[0];
    DiffMember(a, b, k);
    if k in a.members && k in b.members && a.members[k].Obj? && b.members[k].Obj? {
      DiffEmptyIff(a.members[k], b.members[k]);
      if p[1..] != [] {
        DiffMentionsOnlyChanges(a.members[k], b.members[k], p[1..]);
      } else {
        assert Lookup(a, p) == Some(a.members[k]) && Lookup(b, p) == Some(b.members[k]);
      }
    }
  }
}
