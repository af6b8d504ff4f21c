/** JSON Patch (RFC 6902) as the patcher runs it: parents missing on an add are created,
    a path missing on a remove is ignored. Steps into arrays are outside the model and
    are reported as `ArrayStep`. */
module Patcher {
  import opened JsonDocs

  datatype Op =
    | Add(path: Path, value: Json)
    | Remove(path: Path)
    | Replace(path: Path, value: Json)

  datatype PatchError = MissingPath | NotAnObject | ArrayStep

  datatype Result<+T> = Ok(value: T) | Err(error: PatchError)

  predicate IsDigit(c: char) { '0' <= c <= '9' }

  predicate IsNumeral(s: string)
  {
    s != "" && forall i | 0 <= i < |s| :: IsDigit(s[i])
  }

  /** A path step that makes a missing parent an array instead of an object. */
  predicate IsArrayStep(step: string)
  {
    || step == "-"
    || IsNumeral(step)
    || (step != "" && (step[0] == '-' || step[0] == '+') && IsNumeral(step[1..]))
  }

  /** Numbers and the dash are steps of arrays; whatever starts otherwise is not. */
  lemma ArraySteps(step: string)
    ensures IsArrayStep("-") && IsArrayStep("0") && IsArrayStep("10") && IsArrayStep("-1") && IsArrayStep("+1")
    ensures step == "" || !(step[0] == '-' || step[0] == '+' || '0' <= step[0] <= '9') ==> !IsArrayStep(step)
    ensures forall i | 0 < i < |step| && !('0' <= step[i] <= '9') :: !IsArrayStep(step)
  {
    assert "-1"[1..] == "1" && "+1"[1..] == "1";
    forall i | 0 < i < |step| && !('0' <= step[i] <= '9') ensures !IsArrayStep(step) {
      assert step[1..][i - 1] == step[i];
      assert !IsDigit(step[i]);
    }
  }

  /** Whether a path can continue under member `k`; a null counts as nothing there. */
  predicate HasChild(doc: Json, k: string)
  {
    doc.Obj? && k in doc.members && !doc.members[k].Null?
  }

  function WithChild(doc: Json, k: string, child: Result<Json>): Result<Json>
    requires doc.Obj?
  {
    match child
    case Ok(c) => Ok(Obj(doc.members[k := c]))
    case Err(e) => Err(e)
  }

  function AddAt(doc: Json, p: Path, v: Json): Result<Json>
    decreases |p|
  {
    if p == [] then Ok(v)
    else if doc.Arr? then Err(ArrayStep)
    else if !doc.Obj? then Err(NotAnObject)
    else if |p| == 1 then Ok(Obj(doc.members[p[0] := v]))
    else if HasChild(doc, p[0]) then WithChild(doc, p[0], AddAt(doc.members[p[0]], p[1..], v))
    else if IsArrayStep(p[1]) then Err(ArrayStep)
    else WithChild(doc, p[0], AddAt(Obj(map[]), p[1..], v))
  }

  function RemoveAt(doc: Json, p: Path): Result<Json>
    decreases |p|
  {
    if p == [] then Ok(doc)
    else if doc.Arr? then Err(ArrayStep)
    else if !doc.Obj? then Ok(doc)
    else if |p| == 1 then Ok(Obj(doc.members - {p[0]}))
    else if HasChild(doc, p[0]) then WithChild(doc, p[0], RemoveAt(doc.members[p[0]], p[1..]))
    else Ok(doc)
  }

  function ReplaceAt(doc: Json, p: Path, v: Json): Result<Json>
    decreases |p|
  {
    if p == [] then Ok(v)
    else if doc.Arr? then Err(ArrayStep)
    else if !doc.Obj? || p[0] !in doc.members then Err(MissingPath)
    else if |p| == 1 then Ok(Obj(doc.members[p[0] := v]))
    else if HasChild(doc, p[0]) then WithChild(doc, p[0], ReplaceAt(doc.members[p[0]], p[1..], v))
    else Err(MissingPath)
  }

  function ExecOp(op: Op, doc: Json): Result<Json>
  {
    match op
    case Add(p, v) => AddAt(doc, p, v)
    case Remove(p) => RemoveAt(doc, p)
    case Replace(p, v) => ReplaceAt(doc, p, v)
  }

  /** Runs the operations in order; the first failure fails the patch. */
  function Exec(ops: seq<Op>, doc: Json): Result<Json>
    decreases |ops|
  {
    if ops == [] then Ok(doc)
    else
      match ExecOp(ops[0], doc)
      case Err(e) => Err(e)
      case Ok(next) => Exec(ops[1..], next)
  }

  /** Whether running the patch would change the document; a patch that does not apply
      is an error. */
  function IsResourceChanged(ops: seq<Op>, doc: Json): Result<bool>
  {
    match Exec(ops, doc)
    case Err(e) => Err(e)
    case Ok(modified) => Ok(doc != modified)
  }

  // ---------------------------------------------------------------- what an operation leaves behind

  /** Neither path is a prefix of the other. */
  predicate Disjoint(p: Path, q: Path)
  {
    !(p <= q) && !(q <= p)
  }

  predicate PairwiseDisjoint(ops: seq<Op>)
  {
    forall i, j | 0 <= i < j < |ops| :: Disjoint(ops[i].path, ops[j].path)
  }

  /** Nothing lives at `p`, and no array is in the way. */
  predicate Absent(doc: Json, p: Path)
    decreases |p|
  {
    || p == []
    || (&& !doc.Arr?
        && (doc.Obj? && |p| == 1 ==> p[0] !in doc.members)
        && (HasChild(doc, p[0]) && |p| > 1 ==> Absent(doc.members[p[0]], p[1..])))
  }

  /** The document already is what the operation wants it to be. */
  predicate Settled(op: Op, doc: Json)
  {
    match op
    case Add(p, v) => Lookup(doc, p) == Some(v)
    case Remove(p) => Absent(doc, p)
    case Replace(p, v) => Lookup(doc, p) == Some(v)
  }

  predicate AllSettled(ops: seq<Op>, doc: Json)
  {
    forall i | 0 <= i < |ops| :: Settled(ops[i], doc)
  }

  lemma DisjointTails(p: Path, q: Path)
    requires Disjoint(p, q)
    ensures p != [] && q != []
    ensures p[0] == q[0] ==> |p| > 1 && |q| > 1 && Disjoint(p[1..], q[1..])
  {
    if p[0] == q[0] {
      assert p == [p[0]] + p[1..] && q == [q[0]] + q[1..];
    }
  }

  lemma {:induction false} AddSettles(doc: Json, p: Path, v: Json)
    requires AddAt(doc, p, v).Ok?
    ensures Lookup(AddAt(doc, p, v).value, p) == Some(v)
    decreases |p|
  {
    if |p| > 1 {
      AddSettles(if HasChild(doc, p[0]) then doc.members[p[0]] else Obj(map[]), p[1..], v);
    }
  }

  lemma {:induction false} ReplaceSettles(doc: Json, p: Path, v: Json)
    requires ReplaceAt(doc, p, v).Ok?
    ensures Lookup(ReplaceAt(doc, p, v).value, p) == Some(v)
    decreases |p|
  {
    if |p| > 1 { ReplaceSettles(doc.members[p[0]], p[1..], v); }
  }

  lemma {:induction false} RemoveSettles(doc: Json, p: Path)
    requires RemoveAt(doc, p).Ok?
    ensures Absent(RemoveAt(doc, p).value, p)
    decreases |p|
  {
    if |p| > 1 && HasChild(doc, p[0]) { RemoveSettles(doc.members[p[0]], p[1..]); }
  }

  /** An operation that applies leaves its target in place. */
  lemma OpSettles(op: Op, doc: Json)
    requires ExecOp(op, doc).Ok?
    ensures Settled(op, ExecOp(op, doc).value)
  {
    match op
    case Add(p, v) => AddSettles(doc, p, v);
    case Remove(p) => RemoveSettles(doc, p);
    case Replace(p, v) => ReplaceSettles(doc, p, v);
  }

  lemma {:induction false} AddOfPresent(doc: Json, p: Path, v: Json)
    requires Lookup(doc, p) == Some(v)
    ensures AddAt(doc, p, v) == Ok(doc) && ReplaceAt(doc, p, v) == Ok(doc)
    decreases |p|
  {
    if p != [] {
      AddOfPresent(doc.members[p[0]], p[1..], v);
      assert doc.members[p[0] := doc.members[p[0]]] == doc.members;
    }
  }

  lemma {:induction false} RemoveOfAbsent(doc: Json, p: Path)
    requires Absent(doc, p)
    ensures RemoveAt(doc, p) == Ok(doc)
    decreases |p|
  {
    if p != [] && doc.Obj? {
      if |p| == 1 {
        assert doc.members - {p[0]} == doc.members;
      } else if HasChild(doc, p[0]) {
        RemoveOfAbsent(doc.members[p[0]], p[1..]);
        assert doc.members[p[0] := doc.members[p[0]]] == doc.members;
      }
    }
  }

  /** An operation whose target is in place changes nothing. */
  lemma SettledIsNoop(op: Op, doc: Json)
    requires Settled(op, doc)
    ensures ExecOp(op, doc) == Ok(doc)
  {
    match op
    case Add(p, v) => AddOfPresent(doc, p, v);
    case Remove(p) => RemoveOfAbsent(doc, p);
    case Replace(p, v) => AddOfPresent(doc, p, v);
  }

  // ---------------------------------------------------------------- when an operation applies

  /** The document an operation leaves under the first step of its path. */
  function Under(doc: Json, k: string): Json {
    if HasChild(doc, k) then doc.members[k] else Obj(map[])
  }

  /** The first `n` steps of `p` lead somewhere an add can go on from: to an object, or below
      the root to nothing or null, where an object is made unless the next step is one of an
      array. */
  predicate AddableAt(doc: Json, p: Path, n: nat)
    requires n < |p|
  {
    match Lookup(doc, p[..n])
    case None => !IsArrayStep(p[n])
    case Some(x) => x.Obj? || (n > 0 && x.Null? && !IsArrayStep(p[n]))
  }

  predicate Addable(doc: Json, p: Path)
  {
    forall n | 0 <= n < |p| :: AddableAt(doc, p, n)
  }

  lemma LookupStep(doc: Json, p: Path, n: nat)
    requires 0 < n <= |p|
    ensures Lookup(doc, p[..n]) ==
            if doc.Obj? && p[0] in doc.members then Lookup(doc.members[p[0]], p[1..][..n - 1]) else None
  {
    assert p[..n][0] == p[0] && p[..n][1..] == p[1..][..n - 1];
  }

  lemma AddableStep(doc: Json, p: Path, n: nat)
    requires doc.Obj? && 0 < n < |p|
    ensures AddableAt(doc, p, n) <==>
            AddableAt(Under(doc, p[0]), p[1..], n - 1) && (n == 1 && !HasChild(doc, p[0]) ==> !IsArrayStep(p[1]))
  {
    LookupStep(doc, p, n);
    assert p[1..][n - 1] == p[n];
    if !HasChild(doc, p[0]) && n > 1 {
      LookupStep(Obj(map[]), p[1..], n - 1);
      if p[0] in doc.members { LookupStep(Null, p[1..], n - 1); }
    }
  }

  /** An add applies exactly when every step before the last leads somewhere it can go on from. */
  lemma {:induction false} AddAppliesIff(doc: Json, p: Path, v: Json)
    ensures AddAt(doc, p, v).Ok? <==> Addable(doc, p)
    decreases |p|
  {
    if p != [] {
      assert AddableAt(doc, p, 0) <==> doc.Obj?;
    }
    if |p| > 1 && doc.Obj? {
      var inner := Under(doc, p[0]);
      AddAppliesIff(inner, p[1..], v);
      forall n | 0 < n < |p|
        ensures AddableAt(doc, p, n) <==> AddableAt(inner, p[1..], n - 1) && (n == 1 && !HasChild(doc, p[0]) ==> !IsArrayStep(p[1]))
      {
        AddableStep(doc, p, n);
      }
      if Addable(doc, p) {
        forall n | 0 <= n < |p[1..]| ensures AddableAt(inner, p[1..], n) {
          assert AddableAt(doc, p, n + 1);
        }
        assert AddableAt(doc, p, 1);
      }
    }
  }

  /** A replace applies exactly when there is something to replace. */
  lemma {:induction false} ReplaceAppliesIff(doc: Json, p: Path, v: Json)
    ensures ReplaceAt(doc, p, v).Ok? <==> Lookup(doc, p).Some?
    decreases |p|
  {
    if |p| > 1 && doc.Obj? && p[0] in doc.members {
      ReplaceAppliesIff(doc.members[p[0]], p[1..], v);
    }
  }

  /** No step before the last leads to an array. */
  predicate NoArrayBefore(doc: Json, p: Path)
  {
    forall n | 0 <= n < |p| :: Lookup(doc, p[..n]).Some? ==> !Lookup(doc, p[..n]).value.Arr?
  }

  /** A remove always applies, short of arrays. */
  lemma {:induction false} RemoveAppliesIff(doc: Json, p: Path)
    ensures RemoveAt(doc, p).Ok? <==> NoArrayBefore(doc, p)
    decreases |p|
  {
    if p != [] {
      assert Lookup(doc, p[..0]) == Some(doc);
    }
    forall n | 0 < n < |p|
      ensures Lookup(doc, p[..n]) == if doc.Obj? && p[0] in doc.members then Lookup(doc.members[p[0]], p[1..][..n - 1]) else None
    {
      LookupStep(doc, p, n);
    }
    if |p| > 1 && doc.Obj? && p[0] in doc.members {
      var child := doc.members[p[0]];
      RemoveAppliesIff(child, p[1..]);
      if NoArrayBefore(doc, p) {
        forall n | 0 <= n < |p[1..]| ensures Lookup(child, p[1..][..n]).Some? ==> !Lookup(child, p[1..][..n]).value.Arr? {
          assert Lookup(doc, p[..n + 1]) == Lookup(child, p[1..][..n]);
        }
      }
    }
  }

  // ---------------------------------------------------------------- frames

  /** An operation that applies rewrites the document only under its first step. */
  lemma OpShape(op: Op, doc: Json)
    requires op.path != [] && ExecOp(op, doc).Ok?
    ensures var d := ExecOp(op, doc).value; var k := op.path[0];
            && (doc.Obj? <==> d.Obj?) && (!doc.Obj? ==> d == doc)
            && (doc.Obj? ==> forall q | q != k :: (q in d.members <==> q in doc.members)
                                                 && MemberOr(d.members, q) == MemberOr(doc.members, q))
  {
  }

  /** One level down, the same operation runs on the member; or nothing happens at all. */
  lemma OpDescends(op: Op, doc: Json)
    requires |op.path| > 1 && ExecOp(op, doc).Ok? && doc.Obj?
    ensures var d := ExecOp(op, doc).value; var k := op.path[0]; var inner := op.(path := op.path[1..]);
            || (d == doc && op.Remove?)
            || (&& ExecOp(inner, Under(doc, k)).Ok?
                && d == Obj(doc.members[k := ExecOp(inner, Under(doc, k)).value]))
  {
  }

  /** A path disjoint from the operation's own keeps its value. */
  lemma {:induction false} OpKeepsDisjoint(op: Op, doc: Json, q: Path)
    requires Disjoint(op.path, q) && ExecOp(op, doc).Ok?
    ensures Lookup(ExecOp(op, doc).value, q) == Lookup(doc, q)
    decreases |q|
  {
    DisjointTails(op.path, q);
    OpShape(op, doc);
    if doc.Obj? && q[0] == op.path[0] {
      OpDescends(op, doc);
      var inner := op.(path := op.path[1..]);
      if ExecOp(inner, Under(doc, q[0])).Ok? {
        OpKeepsDisjoint(inner, Under(doc, q[0]), q[1..]);
      }
    }
  }

  lemma {:induction false} OpKeepsAbsent(op: Op, doc: Json, q: Path)
    requires Disjoint(op.path, q) && ExecOp(op, doc).Ok? && Absent(doc, q)
    ensures Absent(ExecOp(op, doc).value, q)
    decreases |q|
  {
    DisjointTails(op.path, q);
    OpShape(op, doc);
    var d := ExecOp(op, doc).value;
    if doc.Obj? && q[0] == op.path[0] {
      OpDescends(op, doc);
      var inner := op.(path := op.path[1..]);
      if d != doc {
        OpKeepsAbsent(inner, Under(doc, q[0]), q[1..]);
      }
    }
  }

  lemma OpKeepsSettled(op: Op, doc: Json, other: Op)
    requires Disjoint(op.path, other.path) && ExecOp(op, doc).Ok? && Settled(other, doc)
    ensures Settled(other, ExecOp(op, doc).value)
  {
    match other
    case Add(q, _) => OpKeepsDisjoint(op, doc, q);
    case Remove(q) => OpKeepsAbsent(op, doc, q);
    case Replace(q, _) => OpKeepsDisjoint(op, doc, q);
  }

  /** A patch leaves alone every path disjoint from all of its own. */
  lemma {:induction false} ExecKeepsDisjoint(ops: seq<Op>, doc: Json, q: Path)
    requires Exec(ops, doc).Ok?
    requires forall i | 0 <= i < |ops| :: Disjoint(ops[i].path, q)
    ensures Lookup(Exec(ops, doc).value, q) == Lookup(doc, q)
    decreases |ops|
  {
    if ops != [] {
      OpKeepsDisjoint(ops[0], doc, q);
      ExecKeepsDisjoint(ops[1..], ExecOp(ops[0], doc).value, q);
    }
  }

  lemma {:induction false} ExecKeepsSettled(ops: seq<Op>, doc: Json, other: Op)
    requires Exec(ops, doc).Ok? && Settled(other, doc)
    requires forall i | 0 <= i < |ops| :: Disjoint(ops[i].path, other.path)
    ensures Settled(other, Exec(ops, doc).value)
    decreases |ops|
  {
    if ops != [] {
      OpKeepsSettled(ops[0], doc, other);
      ExecKeepsSettled(ops[1..], ExecOp(ops[0], doc).value, other);
    }
  }

  /** A patch with no operation on the whole document maps objects to objects. */
  lemma {:induction false} ExecKeepsObject(ops: seq<Op>, doc: Json)
    requires doc.Obj? && Exec(ops, doc).Ok?
    requires forall i | 0 <= i < |ops| :: ops[i].path != []
    ensures Exec(ops, doc).value.Obj?
    decreases |ops|
  {
    if ops != [] {
      OpShape(ops[0], doc);
      ExecKeepsObject(ops[1..], ExecOp(ops[0], doc).value);
    }
  }

  // ---------------------------------------------------------------- idempotence

  /** After a patch on pairwise disjoint paths every operation's target is in place. */
  lemma {:induction false} ExecSettlesAll(ops: seq<Op>, doc: Json)
    requires PairwiseDisjoint(ops) && Exec(ops, doc).Ok?
    ensures AllSettled(ops, Exec(ops, doc).value)
    decreases |ops|
  {
    if ops != [] {
      var next := ExecOp(ops[0], doc).value;
      OpSettles(ops[0], doc);
      forall i | 0 <= i < |ops[1..]| ensures Disjoint(ops[1..][i].path, ops[0].path) {
        assert Disjoint(ops[0].path, ops[i + 1].path);
      }
      ExecKeepsSettled(ops[1..], next, ops[0]);
      ExecSettlesAll(ops[1..], next);
      forall i | 0 <= i < |ops| ensures Settled(ops[i], Exec(ops, doc).value) {
        if i > 0 { assert ops[i] == ops[1..][i - 1]; }
      }
    }
  }

  lemma {:induction false} ExecOfSettled(ops: seq<Op>, doc: Json)
    requires AllSettled(ops, doc)
    ensures Exec(ops, doc) == Ok(doc)
    decreases |ops|
  {
    if ops != [] {
      SettledIsNoop(ops[0], doc);
      ExecOfSettled(ops[1..], doc);
    }
  }

  /** The fixpoints of a patch on pairwise disjoint paths are exactly the documents in
      which every operation's target is in place. */
  lemma FixpointIffSettled(ops: seq<Op>, doc: Json)
    requires PairwiseDisjoint(ops)
    ensures IsResourceChanged(ops, doc) == Ok(false) <==> AllSettled(ops, doc)
  {
    if IsResourceChanged(ops, doc) == Ok(false) { ExecSettlesAll(ops, doc); }
    if AllSettled(ops, doc) { ExecOfSettled(ops, doc); }
  }

  /** Running a patch on pairwise disjoint paths twice is running it once. */
  lemma ExecIdempotent(ops: seq<Op>, doc: Json)
    requires PairwiseDisjoint(ops) && Exec(ops, doc).Ok?
    ensures Exec(ops, Exec(ops, doc).value) == Exec(ops, doc)
    ensures IsResourceChanged(ops, Exec(ops, doc).value) == Ok(false)
  {
    ExecSettlesAll(ops, doc);
    ExecOfSettled(ops, Exec(ops, doc).value);
  }

  /** With overlapping paths it need not be: the second run of this patch fails. */
  lemma OverlappingPathsAreNotIdempotent()
    ensures var ops := [Add(["a", "b"], Num(1.0)), Add(["a"], Str("x"))];
            var slept := Exec(ops, Obj(map[]));
            && slept == Ok(Obj(map["a" := Str("x")]))
            && Exec(ops, slept.value) == Err(NotAnObject)
  {
    var ops := [Add(["a", "b"], Num(1.0)), Add(["a"], Str("x"))];
    var empty := Obj(map[]);
    assert ["a", "b"][1..] == ["b"];
    assert !IsDigit("b"[0]) && !IsArrayStep("b");
    var inner := Obj(map["b" := Num(1.0)]);
    assert AddAt(empty, ["b"], Num(1.0)) == Ok(inner);
    assert AddAt(empty, ["a", "b"], Num(1.0)) == Ok(Obj(map["a" := inner]));
    assert ops[1..] == [Add(["a"], Str("x"))] && ops[1..][1..] == [];
    var slept := Obj(map["a" := Str("x")]);
    assert Obj(map["a" := inner]["a" := Str("x")]) == slept;
    assert Exec(ops[1..], Obj(map["a" := inner])) == Exec(ops[1..][1..], slept);
    assert AddAt(Str("x"), ["b"], Num(1.0)) == Err(NotAnObject);
    assert ExecOp(ops[0], slept) == Err(NotAnObject);
  }
}
