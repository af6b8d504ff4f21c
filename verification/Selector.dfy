/** Which resources of a kind a SleepInfo manages: include and exclude rules, split between
    selectors the server evaluates and a filter on the fetched list. */
module Selector {
  import opened JsonDocs
  import opened ApiObjects

  datatype PatchTarget = PatchTarget(group: string, kind: string)

  datatype FilterRef = FilterRef(apiVersion: string, kind: string, name: string, matchLabels: map<string, string>)

  datatype Filters = Filters(included: seq<FilterRef>, excluded: seq<FilterRef>)

  datatype FieldTerm = NameIs(name: string) | NameIsNot(name: string)

  datatype LabelTerm = LabelIs(key: string, value: string) | LabelIsNot(key: string, value: string)

  /** The most objects one list call returns; no continuation is followed. */
  const LIMIT: nat := 500

  // ---------------------------------------------------------------- the declarative rule

  /** The reference names a resource of the target's group and kind. */
  predicate NamesTarget(target: PatchTarget, ref: FilterRef)
  {
    target.group + "/" <= ref.apiVersion && ref.kind == target.kind && ref.name != ""
  }

  predicate NamesAny(refs: seq<FilterRef>, target: PatchTarget)
  {
    exists i | 0 <= i < |refs| :: NamesTarget(target, refs[i])
  }

  predicate Names(refs: seq<FilterRef>, target: PatchTarget, name: string)
  {
    exists i | 0 <= i < |refs| :: NamesTarget(target, refs[i]) && refs[i].name == name
  }

  predicate LabelPair(refs: seq<FilterRef>, key: string, value: string)
  {
    exists i | 0 <= i < |refs| :: key in refs[i].matchLabels && refs[i].matchLabels[key] == value
  }

  predicate CarriesAll(refs: seq<FilterRef>, doc: Json)
  {
    forall i | 0 <= i < |refs| :: forall k | k in refs[i].matchLabels :: HasLabel(doc, k, refs[i].matchLabels[k])
  }

  predicate CarriesNone(refs: seq<FilterRef>, doc: Json)
  {
    forall i | 0 <= i < |refs| :: forall k | k in refs[i].matchLabels :: !HasLabel(doc, k, refs[i].matchLabels[k])
  }

  /** Included by name if any name is given for the target, carrying every included label
      pair, not excluded by name, carrying no excluded label pair. */
  predicate Selected(f: Filters, target: PatchTarget, doc: Json)
  {
    && (NamesAny(f.included, target) ==> Names(f.included, target, Name(doc)))
    && CarriesAll(f.included, doc)
    && !Names(f.excluded, target, Name(doc))
    && CarriesNone(f.excluded, doc)
  }

  /** The names the references give for a target, in order and with repetitions. */
  function NamesOf(refs: seq<FilterRef>, target: PatchTarget): seq<string>
  {
    if refs == [] then []
    else
      var rest := NamesOf(refs[..|refs| - 1], target);
      var last := refs[|refs| - 1];
      if NamesTarget(target, last) then rest + [last.name] else rest
  }

  /** The part of the rule the server can evaluate: everything but a choice of names. */
  predicate ServerSelected(f: Filters, target: PatchTarget, doc: Json)
  {
    && (|NamesOf(f.included, target)| == 1 ==> Name(doc) == NamesOf(f.included, target)[0])
    && CarriesAll(f.included, doc)
    && !Names(f.excluded, target, Name(doc))
    && CarriesNone(f.excluded, doc)
  }

  function ServerSelectedOf(items: seq<Json>, f: Filters, target: PatchTarget): seq<Json>
  {
    if items == [] then []
    else
      var rest := ServerSelectedOf(items[..|items| - 1], f, target);
      var last := items[|items| - 1];
      if ServerSelected(f, target, last) then rest + [last] else rest
  }

  function SelectedOf(items: seq<Json>, f: Filters, target: PatchTarget): seq<Json>
  {
    if items == [] then []
    else
      var rest := SelectedOf(items[..|items| - 1], f, target);
      var last := items[|items| - 1];
      if Selected(f, target, last) then rest + [last] else rest
  }

  // ---------------------------------------------------------------- what the server evaluates

  predicate FieldMatches(term: FieldTerm, doc: Json)
  {
    match term
    case NameIs(n) => Name(doc) == n
    case NameIsNot(n) => Name(doc) != n
  }

  predicate LabelMatches(term: LabelTerm, doc: Json)
  {
    match term
    case LabelIs(k, v) => HasLabel(doc, k, v)
    case LabelIsNot(k, v) => !HasLabel(doc, k, v)
  }

  predicate ServerMatches(fields: seq<FieldTerm>, labels: seq<LabelTerm>, doc: Json)
  {
    && (forall t | t in fields :: FieldMatches(t, doc))
    && (forall t | t in labels :: LabelMatches(t, doc))
  }

  function ServerMatching(items: seq<Json>, fields: seq<FieldTerm>, labels: seq<LabelTerm>): seq<Json>
  {
    if items == [] then []
    else
      var rest := ServerMatching(items[..|items| - 1], fields, labels);
      var last := items[|items| - 1];
      if ServerMatches(fields, labels, last) then rest + [last] else rest
  }

  function Limited(items: seq<Json>): seq<Json> {
    if |items| > LIMIT then items[..LIMIT] else items
  }

  // ---------------------------------------------------------------- building the selectors

  method CollectNames(refs: seq<FilterRef>, target: PatchTarget) returns (names: seq<string>)
    ensures names == NamesOf(refs, target)
    ensures forall n :: n in names <==> Names(refs, target, n)
    ensures names == [] <==> !NamesAny(refs, target)
  {
    names := [];
    for i := 0 to |refs|
      invariant names == NamesOf(refs[..i], target)
      invariant forall n :: n in names <==> Names(refs[..i], target, n)
      invariant names == [] <==> !NamesAny(refs[..i], target)
    {
      assert refs[..i + 1] == refs[..i] + [refs[i]];
      assert refs[..i + 1][..i] == refs[..i];
      if NamesTarget(target, refs[i]) {
        names := names + [refs[i].name];
        assert NamesTarget(target, refs[..i + 1][i]);
      }
      forall n ensures Names(refs[..i + 1], target, n) <==>
                       Names(refs[..i], target, n) || (NamesTarget(target, refs[i]) && refs[i].name == n)
      {
        NamesSnoc(refs[..i], refs[i], target, n);
      }
    }
    assert refs[..|refs|] == refs;
  }

  lemma NamesSnoc(refs: seq<FilterRef>, ref: FilterRef, target: PatchTarget, n: string)
    ensures Names(refs + [ref], target, n) <==>
            Names(refs, target, n) || (NamesTarget(target, ref) && ref.name == n)
  {
    var all := refs + [ref];
    assert all[|refs|] == ref;
    assert forall j | 0 <= j < |refs| :: all[j] == refs[j];
  }

  method GetFieldToExclude(refs: seq<FilterRef>, target: PatchTarget) returns (fields: seq<FieldTerm>)
    ensures forall t :: t in fields <==> t.NameIsNot? && Names(refs, target, t.name)
  {
    var names := CollectNames(refs, target);
    fields := [];
    for i := 0 to |names|
      invariant forall t :: t in fields <==> t.NameIsNot? && t.name in names[..i]
    {
      fields := fields + [NameIsNot(names[i])];
    }
    assert names[..|names|] == names;
  }

  /** A single name becomes a selector; several cannot, since selector terms are a
      conjunction, and are returned to filter the fetched list with. */
  method GetFieldToInclude(refs: seq<FilterRef>, target: PatchTarget)
    returns (fields: seq<FieldTerm>, namesToInclude: set<string>)
    ensures forall n :: (NamesAny(refs, target) ==> Names(refs, target, n)) <==>
                        (forall t | t in fields :: t == NameIs(n)) && (namesToInclude != {} ==> n in namesToInclude)
    ensures fields == if |NamesOf(refs, target)| == 1 then [NameIs(NamesOf(refs, target)[0])] else []
  {
    var names := CollectNames(refs, target);
    if |names| == 0 {
      return [], {};
    } else if |names| == 1 {
      assert forall n :: n in names <==> n == names[0];
      assert NameIs(names[0]) in [NameIs(names[0])];
      return [NameIs(names[0])], {};
    } else {
      namesToInclude := {};
      for i := 0 to |names|
        invariant forall n :: n in namesToInclude <==> n in names[..i]
      {
        namesToInclude := namesToInclude + {names[i]};
      }
      assert names[..|names|] == names;
      assert names[0] in namesToInclude;
      return [], namesToInclude;
    }
  }

  /** The label pairs of the references as selector terms, in any order within one. */
  method LabelTerms(refs: seq<FilterRef>, including: bool) returns (terms: seq<LabelTerm>)
    ensures forall t :: t in terms <==> t.LabelIs? == including && LabelPair(refs, t.key, t.value)
  {
    terms := [];
    for i := 0 to |refs|
      invariant forall t :: t in terms <==> t.LabelIs? == including && LabelPair(refs[..i], t.key, t.value)
    {
      var before := terms;
      var todo := refs[i].matchLabels.Keys;
      while todo != {}
        invariant todo <= refs[i].matchLabels.Keys
        invariant forall t :: t in terms <==>
                    (t in before
                     || (t.LabelIs? == including && t.key in refs[i].matchLabels && t.key !in todo
                         && refs[i].matchLabels[t.key] == t.value))
        decreases |todo|
      {
        var k :| k in todo;
        terms := terms + [if including then LabelIs(k, refs[i].matchLabels[k]) else LabelIsNot(k, refs[i].matchLabels[k])];
        todo := todo - {k};
      }
      assert refs[..i + 1] == refs[..i] + [refs[i]];
      forall t: LabelTerm ensures LabelPair(refs[..i + 1], t.key, t.value) <==>
        LabelPair(refs[..i], t.key, t.value) || (t.key in refs[i].matchLabels && refs[i].matchLabels[t.key] == t.value)
      {
        LabelPairSnoc(refs[..i], refs[i], t.key, t.value);
      }
    }
    assert refs[..|refs|] == refs;
  }

  lemma LabelPairSnoc(refs: seq<FilterRef>, ref: FilterRef, key: string, value: string)
    ensures LabelPair(refs + [ref], key, value) <==>
            LabelPair(refs, key, value) || (key in ref.matchLabels && ref.matchLabels[key] == value)
  {
    var all := refs + [ref];
    assert all[|refs|] == ref;
    assert forall j | 0 <= j < |refs| :: all[j] == refs[j];
  }

  /** Options and names that together mean the declarative rule. */
  ghost predicate Splits(f: Filters, target: PatchTarget, fields: seq<FieldTerm>, labels: seq<LabelTerm>, names: set<string>)
  {
    forall doc ::
      && (ServerMatches(fields, labels, doc) <==> ServerSelected(f, target, doc))
      && (Selected(f, target, doc) <==> ServerSelected(f, target, doc) && (names != {} ==> Name(doc) in names))
  }

  lemma LabelTermsMean(f: Filters, inc: seq<LabelTerm>, exc: seq<LabelTerm>, doc: Json)
    requires forall t :: t in inc <==> t.LabelIs? && LabelPair(f.included, t.key, t.value)
    requires forall t :: t in exc <==> t.LabelIsNot? && LabelPair(f.excluded, t.key, t.value)
    ensures (forall t | t in inc :: LabelMatches(t, doc)) <==> CarriesAll(f.included, doc)
    ensures (forall t | t in exc :: LabelMatches(t, doc)) <==> CarriesNone(f.excluded, doc)
  {
    if forall t | t in inc :: LabelMatches(t, doc) {
      forall i, k | 0 <= i < |f.included| && k in f.included[i].matchLabels
        ensures HasLabel(doc, k, f.included[i].matchLabels[k])
      {
        assert LabelPair(f.included, k, f.included[i].matchLabels[k]);
        assert LabelIs(k, f.included[i].matchLabels[k]) in inc;
      }
    }
    if forall t | t in exc :: LabelMatches(t, doc) {
      forall i, k | 0 <= i < |f.excluded| && k in f.excluded[i].matchLabels
        ensures !HasLabel(doc, k, f.excluded[i].matchLabels[k])
      {
        assert LabelPair(f.excluded, k, f.excluded[i].matchLabels[k]);
        assert LabelIsNot(k, f.excluded[i].matchLabels[k]) in exc;
      }
    }
  }

  lemma NameTermsMean(f: Filters, target: PatchTarget, inc: seq<FieldTerm>, exc: seq<FieldTerm>, names: set<string>, doc: Json)
    requires forall n :: (NamesAny(f.included, target) ==> Names(f.included, target, n)) <==>
                         (forall t | t in inc :: t == NameIs(n)) && (names != {} ==> n in names)
    requires inc == if |NamesOf(f.included, target)| == 1 then [NameIs(NamesOf(f.included, target)[0])] else []
    requires forall t :: t in exc <==> t.NameIsNot? && Names(f.excluded, target, t.name)
    ensures (forall t | t in inc :: FieldMatches(t, doc)) && (names != {} ==> Name(doc) in names) <==>
            (NamesAny(f.included, target) ==> Names(f.included, target, Name(doc)))
    ensures (forall t | t in inc :: FieldMatches(t, doc)) <==>
            (|NamesOf(f.included, target)| == 1 ==> Name(doc) == NamesOf(f.included, target)[0])
    ensures (forall t | t in exc :: FieldMatches(t, doc)) <==> !Names(f.excluded, target, Name(doc))
  {
    if |NamesOf(f.included, target)| == 1 { assert inc[0] in inc; }
    assert (forall t | t in inc :: FieldMatches(t, doc)) <==> (forall t | t in inc :: t == NameIs(Name(doc)));
    if Names(f.excluded, target, Name(doc)) {
      assert NameIsNot(Name(doc)) in exc && !FieldMatches(NameIsNot(Name(doc)), doc);
    }
  }

  method GetListOptions(f: Filters, target: PatchTarget)
    returns (fields: seq<FieldTerm>, labels: seq<LabelTerm>, namesToInclude: set<string>)
    ensures Splits(f, target, fields, labels, namesToInclude)
  {
    var fieldsToInclude, names := GetFieldToInclude(f.included, target);
    var labelsToInclude := LabelTerms(f.included, true);
    var fieldsToExclude := GetFieldToExclude(f.excluded, target);
    var labelsToExclude := LabelTerms(f.excluded, false);
    fields := fieldsToInclude + fieldsToExclude;
    labels := labelsToInclude + labelsToExclude;
    namesToInclude := names;
    forall doc
      ensures ServerMatches(fields, labels, doc) <==> ServerSelected(f, target, doc)
      ensures Selected(f, target, doc) <==> ServerSelected(f, target, doc) && (names != {} ==> Name(doc) in names)
    {
      LabelTermsMean(f, labelsToInclude, labelsToExclude, doc);
      NameTermsMean(f, target, fieldsToInclude, fieldsToExclude, names, doc);
      assert (forall t | t in fields :: FieldMatches(t, doc)) <==>
             (forall t | t in fieldsToInclude :: FieldMatches(t, doc)) && (forall t | t in fieldsToExclude :: FieldMatches(t, doc));
      assert (forall t | t in labels :: LabelMatches(t, doc)) <==>
             (forall t | t in labelsToInclude :: LabelMatches(t, doc)) && (forall t | t in labelsToExclude :: LabelMatches(t, doc));
    }
  }

  // ---------------------------------------------------------------- listing

  function KeepNames(items: seq<Json>, names: set<string>): seq<Json>
  {
    if items == [] then []
    else
      var rest := KeepNames(items[..|items| - 1], names);
      var last := items[|items| - 1];
      if Name(last) in names then rest + [last] else rest
  }

  /** Keeps the named items; without names it keeps everything. */
  method FilterByName(items: seq<Json>, names: set<string>) returns (filtered: seq<Json>)
    ensures filtered == if names == {} then items else KeepNames(items, names)
  {
    if names == {} {
      return items;
    }
    filtered := [];
    for i := 0 to |items|
      invariant filtered == KeepNames(items[..i], names)
    {
      assert items[..i + 1][..i] == items[..i];
      if Name(items[i]) in names {
        filtered := filtered + [items[i]];
      }
    }
    assert items[..|items|] == items;
  }

  /** Filtering server matches by name is filtering by the declarative rule. */
  lemma {:induction false} SplitFilters(items: seq<Json>, f: Filters, target: PatchTarget,
                                        fields: seq<FieldTerm>, labels: seq<LabelTerm>, names: set<string>)
    requires Splits(f, target, fields, labels, names)
    requires forall i | 0 <= i < |items| :: ServerSelected(f, target, items[i])
    ensures (if names == {} then items else KeepNames(items, names)) == SelectedOf(items, f, target)
  {
    if items != [] {
      var init, last := items[..|items| - 1], items[|items| - 1];
      assert Selected(f, target, last) <==> ServerSelected(f, target, last) && (names != {} ==> Name(last) in names);
      SplitFilters(init, f, target, fields, labels, names);
      assert items == init + [last];
    }
  }

  lemma {:induction false} ServerMatchingIs(items: seq<Json>, f: Filters, target: PatchTarget,
                                            fields: seq<FieldTerm>, labels: seq<LabelTerm>, names: set<string>)
    requires Splits(f, target, fields, labels, names)
    ensures ServerMatching(items, fields, labels) == ServerSelectedOf(items, f, target)
  {
    if items != [] {
      ServerMatchingIs(items[..|items| - 1], f, target, fields, labels, names);
      var last := items[|items| - 1];
      assert ServerMatches(fields, labels, last) <==> ServerSelected(f, target, last);
    }
  }

  lemma {:induction false} NamesOfIff(refs: seq<FilterRef>, target: PatchTarget, n: string)
    ensures n in NamesOf(refs, target) <==> Names(refs, target, n)
    ensures NamesOf(refs, target) == [] <==> !NamesAny(refs, target)
  {
    if refs != [] {
      var init, last := refs[..|refs| - 1], refs[|refs| - 1];
      NamesOfIff(init, target, n);
      NamesSnoc(init, last, target, n);
      assert refs == init + [last];
      assert NamesAny(refs, target) <==> NamesAny(init, target) || NamesTarget(target, last);
    }
  }

  lemma SelectedIsServerSelected(f: Filters, target: PatchTarget, doc: Json)
    requires Selected(f, target, doc)
    ensures ServerSelected(f, target, doc)
  {
    NamesOfIff(f.included, target, Name(doc));
  }

  lemma {:induction false} ServerSelectedProperties(items: seq<Json>, f: Filters, target: PatchTarget)
    ensures var served := ServerSelectedOf(items, f, target);
            && |served| <= |items|
            && (forall i | 0 <= i < |served| :: ServerSelected(f, target, served[i]))
            && SelectedOf(served, f, target) == SelectedOf(items, f, target)
  {
    if items != [] {
      var init, last := items[..|items| - 1], items[|items| - 1];
      ServerSelectedProperties(init, f, target);
      var rest := ServerSelectedOf(init, f, target);
      if Selected(f, target, last) { SelectedIsServerSelected(f, target, last); }
      assert (rest + [last])[..|rest|] == rest;
    }
  }

  lemma {:induction false} SelectedOfAppend(a: seq<Json>, b: seq<Json>, f: Filters, target: PatchTarget)
    ensures SelectedOf(a + b, f, target) == SelectedOf(a, f, target) + SelectedOf(b, f, target)
  {
    if b == [] {
      assert a + b == a;
    } else {
      var init := b[..|b| - 1];
      assert (a + b)[..|a + b| - 1] == a + init;
      SelectedOfAppend(a, init, f, target);
    }
  }

  lemma {:induction false} AllSelected(items: seq<Json>, f: Filters, target: PatchTarget)
    requires forall i | 0 <= i < |items| :: Selected(f, target, items[i])
    ensures SelectedOf(items, f, target) == items
  {
    if items != [] {
      AllSelected(items[..|items| - 1], f, target);
      assert items == items[..|items| - 1] + [items[|items| - 1]];
    }
  }

  /** With at most one included name the server decides alone. */
  lemma ServerDecides(f: Filters, target: PatchTarget, doc: Json)
    requires |NamesOf(f.included, target)| < 2 && ServerSelected(f, target, doc)
    ensures Selected(f, target, doc)
  {
    var names := NamesOf(f.included, target);
    if NamesAny(f.included, target) {
      var i :| 0 <= i < |f.included| && NamesTarget(target, f.included[i]);
      NamesOfIff(f.included, target, f.included[i].name);
      NamesOfIff(f.included, target, Name(doc));
    }
  }

  /** What a listing returns is the whole selection if and only if no selected item comes
      after the first `LIMIT` server matches; so it is whenever at most that many match, and
      with fewer than two included names only then. */
  lemma ListingIsCompleteIff(items: seq<Json>, f: Filters, target: PatchTarget)
    ensures var served := ServerSelectedOf(items, f, target);
            var complete := SelectedOf(Limited(served), f, target) == SelectedOf(items, f, target);
            && |served| <= |items|
            && (complete <==> SelectedOf(served[|Limited(served)|..], f, target) == [])
            && (|served| <= LIMIT ==> complete)
            && (|NamesOf(f.included, target)| < 2 ==> (complete <==> |served| <= LIMIT))
  {
    ServerSelectedProperties(items, f, target);
    var served := ServerSelectedOf(items, f, target);
    var fetched := Limited(served);
    var rest := served[|fetched|..];
    assert served == fetched + rest;
    SelectedOfAppend(fetched, rest, f, target);
    if |NamesOf(f.included, target)| < 2 {
      forall i | 0 <= i < |rest| ensures Selected(f, target, rest[i]) {
        assert rest[i] == served[|fetched| + i];
        ServerDecides(f, target, rest[i]);
      }
      AllSelected(rest, f, target);
    }
  }

  /** The fetched list: exactly the selected items among the first `LIMIT` server matches,
      in order. */
  method GetListByNamespace(items: seq<Json>, f: Filters, target: PatchTarget) returns (listed: seq<Json>)
    ensures listed == Fetched(items, f, target)
  {
    var fields, labels, names := GetListOptions(f, target);
    var served := ServerMatching(items, fields, labels);
    ServerMatchingIs(items, f, target, fields, labels, names);
    ServerSelectedProperties(items, f, target);
    listed := FilterByName(Limited(served), names);
    SplitFilters(Limited(served), f, target, fields, labels, names);
  }

  // ---------------------------------------------------------------- what a reference does

  /** A reference to another kind, or outside the group of the target. */
  predicate Foreign(target: PatchTarget, ref: FilterRef)
  {
    ref.kind != target.kind || !(target.group + "/" <= ref.apiVersion)
  }

  lemma {:induction false} ForeignHasNoName(a: seq<FilterRef>, ref: FilterRef, b: seq<FilterRef>, target: PatchTarget)
    requires Foreign(target, ref)
    ensures NamesOf(a + [ref] + b, target) == NamesOf(a + b, target)
    decreases |b|
  {
    var all, rest := a + [ref] + b, a + b;
    if b == [] {
      assert all[..|all| - 1] == a && all[|all| - 1] == ref && rest == a;
    } else {
      var init := b[..|b| - 1];
      assert all[..|all| - 1] == a + [ref] + init && all[|all| - 1] == b[|b| - 1];
      assert rest[..|rest| - 1] == a + init && rest[|rest| - 1] == b[|b| - 1];
      ForeignHasNoName(a, ref, init, target);
    }
  }

  lemma NamesAnyIff(refs: seq<FilterRef>, target: PatchTarget)
    ensures NamesAny(refs, target) <==> NamesOf(refs, target) != []
  {
    if i :| 0 <= i < |refs| && NamesTarget(target, refs[i]) {
      NamesOfIff(refs, target, refs[i].name);
    }
    if NamesOf(refs, target) != [] {
      NamesOfIff(refs, target, NamesOf(refs, target)[0]);
    }
  }

  predicate Carries(ref: FilterRef, doc: Json) { forall k | k in ref.matchLabels :: HasLabel(doc, k, ref.matchLabels[k]) }
  predicate CarriesNot(ref: FilterRef, doc: Json) { forall k | k in ref.matchLabels :: !HasLabel(doc, k, ref.matchLabels[k]) }

  lemma CarriesByRef(refs: seq<FilterRef>, doc: Json)
    ensures CarriesAll(refs, doc) <==> forall ref | ref in refs :: Carries(ref, doc)
    ensures CarriesNone(refs, doc) <==> forall ref | ref in refs :: CarriesNot(ref, doc)
  {
    if forall ref | ref in refs :: Carries(ref, doc) {
      forall i | 0 <= i < |refs| ensures Carries(refs[i], doc) { assert refs[i] in refs; }
    }
    if forall ref | ref in refs :: CarriesNot(ref, doc) {
      forall i | 0 <= i < |refs| ensures CarriesNot(refs[i], doc) { assert refs[i] in refs; }
    }
  }

  /** One reference more in the middle. */
  lemma OneMoreRef(a: seq<FilterRef>, ref: FilterRef, b: seq<FilterRef>, doc: Json)
    requires ref.matchLabels == map[]
    ensures CarriesAll(a + [ref] + b, doc) <==> CarriesAll(a + b, doc)
    ensures CarriesNone(a + [ref] + b, doc) <==> CarriesNone(a + b, doc)
  {
    CarriesByRef(a + [ref] + b, doc);
    CarriesByRef(a + b, doc);
    assert Carries(ref, doc) && CarriesNot(ref, doc);
    assert forall r :: r in a + [ref] + b <==> r in a + b || r == ref;
  }

  lemma ForeignNamesNothing(a: seq<FilterRef>, ref: FilterRef, b: seq<FilterRef>, target: PatchTarget, n: string)
    requires Foreign(target, ref)
    ensures Names(a + [ref] + b, target, n) <==> Names(a + b, target, n)
    ensures NamesAny(a + [ref] + b, target) <==> NamesAny(a + b, target)
  {
    ForeignHasNoName(a, ref, b, target);
    NamesOfIff(a + [ref] + b, target, n);
    NamesOfIff(a + b, target, n);
    NamesAnyIff(a + [ref] + b, target);
    NamesAnyIff(a + b, target);
  }

  /** Two filters that no document of the target tells apart. */
  ghost predicate SameSelection(f: Filters, g: Filters, target: PatchTarget)
  {
    forall doc: Json :: (Selected(f, target, doc) <==> Selected(g, target, doc)) && (ServerSelected(f, target, doc) <==> ServerSelected(g, target, doc))
  }

  lemma {:induction false} SameSelectionLists(f: Filters, g: Filters, target: PatchTarget, items: seq<Json>)
    requires SameSelection(f, g, target)
    ensures SelectedOf(items, f, target) == SelectedOf(items, g, target)
    ensures ServerSelectedOf(items, f, target) == ServerSelectedOf(items, g, target)
  {
    if items != [] { SameSelectionLists(f, g, target, items[..|items| - 1]); }
  }

  /** A foreign reference without labels, wherever it stands among the included or the excluded
      ones, changes neither the selection nor the fetched list. */
  lemma ForeignReferenceIsIgnored(a: seq<FilterRef>, ref: FilterRef, b: seq<FilterRef>, others: seq<FilterRef>, target: PatchTarget, items: seq<Json>)
    requires Foreign(target, ref) && ref.matchLabels == map[]
    ensures SameSelection(Filters(a + [ref] + b, others), Filters(a + b, others), target)
    ensures SameSelection(Filters(others, a + [ref] + b), Filters(others, a + b), target)
    ensures Fetched(items, Filters(a + [ref] + b, others), target) == Fetched(items, Filters(a + b, others), target)
    ensures Fetched(items, Filters(others, a + [ref] + b), target) == Fetched(items, Filters(others, a + b), target)
  {
    ForeignHasNoName(a, ref, b, target);
    forall doc: Json ensures Names(a + [ref] + b, target, Name(doc)) <==> Names(a + b, target, Name(doc)) {
      ForeignNamesNothing(a, ref, b, target, Name(doc));
    }
    ForeignNamesNothing(a, ref, b, target, "");
    forall doc: Json
      ensures CarriesAll(a + [ref] + b, doc) <==> CarriesAll(a + b, doc)
      ensures CarriesNone(a + [ref] + b, doc) <==> CarriesNone(a + b, doc)
    {
      OneMoreRef(a, ref, b, doc);
    }
    FetchedAlike(Filters(a + [ref] + b, others), Filters(a + b, others), target, items);
    FetchedAlike(Filters(others, a + [ref] + b), Filters(others, a + b), target, items);
  }

  /** What a listing returns. */
  function Fetched(items: seq<Json>, f: Filters, target: PatchTarget): seq<Json>
  {
    SelectedOf(Limited(ServerSelectedOf(items, f, target)), f, target)
  }

  lemma FetchedAlike(f: Filters, g: Filters, target: PatchTarget, items: seq<Json>)
    requires SameSelection(f, g, target)
    ensures Fetched(items, f, target) == Fetched(items, g, target)
  {
    SameSelectionLists(f, g, target, items);
    SameSelectionLists(f, g, target, Limited(ServerSelectedOf(items, f, target)));
  }

  /** A reference within the group and to the kind of the target, with a name, is not foreign:
      excluded, it excludes what has that name; included, it leaves only what is named so. */
  lemma OwnReferenceDecides(f: Filters, i: nat, target: PatchTarget, doc: Json)
    ensures i < |f.excluded| && !Foreign(target, f.excluded[i]) && f.excluded[i].name != "" && Name(doc) == f.excluded[i].name ==>
              !Selected(f, target, doc)
    ensures i < |f.included| && !Foreign(target, f.included[i]) && f.included[i].name != "" && Selected(f, target, doc) ==>
              exists j :: 0 <= j < |f.included| && !Foreign(target, f.included[j]) && f.included[j].name == Name(doc) != ""
  {
    if i < |f.included| && !Foreign(target, f.included[i]) && f.included[i].name != "" {
      assert NamesTarget(target, f.included[i]);
    }
    if i < |f.excluded| && !Foreign(target, f.excluded[i]) && f.excluded[i].name != "" {
      assert NamesTarget(target, f.excluded[i]);
    }
  }

  /** The label pair of a reference of any kind: included, everything selected carries it;
      excluded, nothing does. */
  lemma LabelsDecide(f: Filters, i: nat, key: string, target: PatchTarget, doc: Json)
    requires Selected(f, target, doc)
    ensures i < |f.included| && key in f.included[i].matchLabels ==>
              Lookup(doc, ["metadata", "labels", key]) == Some(Str(f.included[i].matchLabels[key]))
    ensures i < |f.excluded| && key in f.excluded[i].matchLabels ==>
              Lookup(doc, ["metadata", "labels", key]) != Some(Str(f.excluded[i].matchLabels[key]))
  {
    if i < |f.included| && key in f.included[i].matchLabels { HasLabelIff(doc, key, f.included[i].matchLabels[key]); }
    if i < |f.excluded| && key in f.excluded[i].matchLabels { HasLabelIff(doc, key, f.excluded[i].matchLabels[key]); }
  }

  /** And nothing else keeps a document out: one that no reference of the target names or
      leaves out, with the labels asked for, is selected. */
  lemma UnopposedIsSelected(f: Filters, target: PatchTarget, doc: Json)
    requires (forall i | 0 <= i < |f.included| :: Foreign(target, f.included[i]) || f.included[i].name == "")
             || (exists i :: 0 <= i < |f.included| && !Foreign(target, f.included[i]) && f.included[i].name == Name(doc) != "")
    requires forall i | 0 <= i < |f.excluded| :: Foreign(target, f.excluded[i]) || f.excluded[i].name != Name(doc) || Name(doc) == ""
    requires forall i, k | 0 <= i < |f.included| && k in f.included[i].matchLabels ::
               Lookup(doc, ["metadata", "labels", k]) == Some(Str(f.included[i].matchLabels[k]))
    requires forall i, k | 0 <= i < |f.excluded| && k in f.excluded[i].matchLabels ::
               Lookup(doc, ["metadata", "labels", k]) != Some(Str(f.excluded[i].matchLabels[k]))
    ensures Selected(f, target, doc)
  {
    forall i, k | 0 <= i < |f.included| && k in f.included[i].matchLabels ensures HasLabel(doc, k, f.included[i].matchLabels[k]) {
      HasLabelIff(doc, k, f.included[i].matchLabels[k]);
    }
    forall i, k | 0 <= i < |f.excluded| && k in f.excluded[i].matchLabels ensures !HasLabel(doc, k, f.excluded[i].matchLabels[k]) {
      HasLabelIff(doc, k, f.excluded[i].matchLabels[k]);
    }
    if i :| 0 <= i < |f.included| && !Foreign(target, f.included[i]) && f.included[i].name == Name(doc) != "" {
      assert NamesTarget(target, f.included[i]);
    }
  }

  // ---------------------------------------------------------------- where the rule surprises

  /** The apiVersion of an object of a group: the version alone in the core group. */
  function ApiVersionOf(group: string, version: string): string {
    if group == "" then version else group + "/" + version
  }

  /** A reference that spells a resource's own apiVersion, kind and name names it exactly
      when the resource is not in the core group. */
  lemma OwnReferenceNamesIff(target: PatchTarget, version: string, name: string)
    requires name != "" && '/' !in version
    ensures NamesTarget(target, FilterRef(ApiVersionOf(target.group, version), target.kind, name, map[]))
       <==> target.group != ""
  {
    if target.group == "" {
      assert "/"[0] == '/' && target.group + "/" == "/";
    } else {
      var v := target.group + "/" + version;
      assert v[..|target.group + "/"|] == target.group + "/";
    }
  }

  /** So excluding a core resource by name leaves it selected. */
  lemma CoreExclusionIsIgnored(doc: Json, kind: string, version: string)
    requires Name(doc) != "" && '/' !in version
    ensures Selected(Filters([], [FilterRef(version, kind, Name(doc), map[])]), PatchTarget("", kind), doc)
  {
    OwnReferenceNamesIff(PatchTarget("", kind), version, Name(doc));
  }

  // A namespace of 501 objects of which the last one is included by name, beside another name.

  function Named(name: string): Json {
    Obj(map["metadata" := Obj(map["name" := Str(name)])])
  }

  lemma NamedHasName(name: string)
    ensures Name(Named(name)) == name
  {
    Lookup2(Named(name), "metadata", "name");
    Lookup1(Named(name).members["metadata"], "name");
  }

  function Filler(i: nat): Json { Named(seq(i + 2, j => 'x')) }

  function CrowdedNamespace(): seq<Json> {
    seq(LIMIT, i requires 0 <= i < LIMIT => Filler(i)) + [Named("b")]
  }

  const TWO_NAMES: Filters :=
    Filters([FilterRef("apps/v1", "Deployment", "a", map[]), FilterRef("apps/v1", "Deployment", "b", map[])], [])

  const CROWDED_KIND: PatchTarget := PatchTarget("apps", "Deployment")

  lemma {:induction false} AllServed(items: seq<Json>, f: Filters, target: PatchTarget)
    requires forall i | 0 <= i < |items| :: ServerSelected(f, target, items[i])
    ensures ServerSelectedOf(items, f, target) == items
  {
    if items != [] {
      AllServed(items[..|items| - 1], f, target);
      assert items == items[..|items| - 1] + [items[|items| - 1]];
    }
  }

  lemma {:induction false} NoneSelected(items: seq<Json>, f: Filters, target: PatchTarget)
    requires forall i | 0 <= i < |items| :: !Selected(f, target, items[i])
    ensures SelectedOf(items, f, target) == []
  {
    if items != [] { NoneSelected(items[..|items| - 1], f, target); }
  }

  lemma TwoNamesFacts()
    ensures |NamesOf(TWO_NAMES.included, CROWDED_KIND)| == 2
    ensures NamesAny(TWO_NAMES.included, CROWDED_KIND)
    ensures forall n :: Names(TWO_NAMES.included, CROWDED_KIND, n) <==> n == "a" || n == "b"
  {
    var refs := TWO_NAMES.included;
    assert CROWDED_KIND.group + "/" == "apps/v1"[..5];
    assert NamesTarget(CROWDED_KIND, refs[0]) && NamesTarget(CROWDED_KIND, refs[1]);
    assert refs[..1] == [refs[0]] && refs[..1][..0] == [];
    assert NamesOf(refs[..1], CROWDED_KIND) == ["a"];
    assert refs[0].name == "a" && refs[1].name == "b";
  }

  /** Several included names are filtered after the limit, so a crowd of other objects hides
      an included one: the fetched list is empty, the selection is not. */
  lemma CrowdHidesIncludedName()
    ensures var items := CrowdedNamespace(); var served := ServerSelectedOf(items, TWO_NAMES, CROWDED_KIND);
            && |items| == 501 && SelectedOf(Limited(served), TWO_NAMES, CROWDED_KIND) == []
            && SelectedOf(items, TWO_NAMES, CROWDED_KIND) == [Named("b")]
  {
    var items := CrowdedNamespace();
    var crowd := items[..LIMIT];
    TwoNamesFacts();
    NamedHasName("b");
    AllServed(items, TWO_NAMES, CROWDED_KIND);
    forall i | 0 <= i < LIMIT ensures !Selected(TWO_NAMES, CROWDED_KIND, crowd[i]) {
      NamedHasName(seq(i + 2, j => 'x'));
      assert |Name(crowd[i])| >= 2 && |"a"| == 1 && |"b"| == 1;
    }
    NoneSelected(crowd, TWO_NAMES, CROWDED_KIND);
    assert items == crowd + [Named("b")];
    assert SelectedOf(items, TWO_NAMES, CROWDED_KIND) == [] + [Named("b")];
  }
}
