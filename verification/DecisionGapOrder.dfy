/** Detection does not depend on the order of branches, blockers, options, facts or ids. */
module DecisionGapOrder {
  import opened Bags
  import opened DecisionGap
  import opened Json
  import opened KeyedLists
  import opened Lexical
  import opened Text

  // ---------------------------------------------------------------- requests up to order

  /** A value with the order of its elements forgotten. */
  datatype Loose = Whole(v: Json) | Bag(items: multiset<Json>)

  ghost function LooseOf(v: Json): Loose {
    if v.Arr? then Bag(multiset(v.items)) else Whole(v)
  }

  /** A blocker with the order of its facts, options and ids forgotten. */
  datatype BlockerShape = Opaque(v: Json) | Fields(f: map<string, Loose>)

  ghost function ShapeOfBlocker(v: Json): BlockerShape {
    if v.Obj? then Fields(map k | k in v.fields :: LooseOf(v.fields[k])) else Opaque(v)
  }

  ghost function Shapes(items: seq<Json>): (s: seq<BlockerShape>)
    ensures |s| == |items| && forall i :: 0 <= i < |items| ==> s[i] == ShapeOfBlocker(items[i])
  {
    seq(|items|, i requires 0 <= i < |items| => ShapeOfBlocker(items[i]))
  }

  /** A list of blockers with their order forgotten too. */
  datatype BlockersShape = NoList(v: Json) | List(blockers: multiset<BlockerShape>)

  ghost function ShapeOfBlockers(v: Json): BlockersShape {
    if v.Arr? then List(multiset(Shapes(v.items))) else NoList(v)
  }

  datatype BranchShape = NoBranch(v: Json) | Members(rest: map<string, Json>, blockers: Option<BlockersShape>)

  ghost function ShapeOfBranch(v: Json): BranchShape {
    if v.Obj? then Members(v.fields - {"blockers"}, if "blockers" in v.fields then Some(ShapeOfBlockers(v.fields["blockers"])) else None)
    else NoBranch(v)
  }

  ghost function BranchShapes(items: seq<Json>): (s: seq<BranchShape>)
    ensures |s| == |items| && forall i :: 0 <= i < |items| ==> s[i] == ShapeOfBranch(items[i])
  {
    seq(|items|, i requires 0 <= i < |items| => ShapeOfBranch(items[i]))
  }

  /** The same request but for the order of its branches, their blockers, and each blocker's lists. */
  ghost predicate Reordered(a: Json, b: Json) {
    && a.Obj? && b.Obj? && a.fields - {"branches"} == b.fields - {"branches"}
    && "branches" in a.fields && "branches" in b.fields
    && a.fields["branches"].Arr? && b.fields["branches"].Arr?
    && multiset(BranchShapes(a.fields["branches"].items)) == multiset(BranchShapes(b.fields["branches"].items))
  }

  // ---------------------------------------------------------------- one blocker

  /** Two readings agree when both fail or both give the same. */
  ghost predicate Alike<V, E>(r: Result<V, E>, q: Result<V, E>) {
    (r.Ok? <==> q.Ok?) && (r.Ok? ==> r.value == q.value)
  }

  lemma ReadsAlike<V>(a: seq<Json>, b: seq<Json>, r: Reader<Json, V, DetectError>)
    requires multiset(a) == multiset(b)
    ensures Alike(Read(a, r), Read(b, r))
  {
    Carried(a, Contributions(a, r), b, Contributions(b, r));
    ReadUnordered(a, r, b, r);
  }

  lemma StringSetsAlike(u: Json, v: Json, of: Subject)
    requires LooseOf(u) == LooseOf(v)
    ensures Alike(StringSet(u, of), StringSet(v, of))
  {
    if u.Arr? {
      ReadsAlike(u.items, v.items, IdReader(of));
    }
  }

  lemma FactsAlike(u: Json, v: Json)
    requires LooseOf(u) == LooseOf(v)
    ensures Alike(ParseFacts(u), ParseFacts(v))
  {
    if u.Arr? {
      ReadsAlike(u.items, v.items, FactReader());
    }
  }

  lemma OptionsAlike(u: Json, v: Json)
    requires LooseOf(u) == LooseOf(v)
    ensures Alike(ParseOptions(u), ParseOptions(v))
  {
    if u.Arr? {
      ReadsAlike(u.items, v.items, OptionReader());
    }
  }

  lemma TextsAlike(u: Json, v: Json, of: Subject)
    requires LooseOf(u) == LooseOf(v)
    ensures NonBlank(u, of) == NonBlank(v, of)
  {
  }

  lemma FieldsAlike(x: Json, y: Json, key: string)
    requires ShapeOfBlocker(x) == ShapeOfBlocker(y)
    ensures LooseOf(At(x, key)) == LooseOf(At(y, key))
  {
    if x.Obj? {
      assert ShapeOfBlocker(x).f.Keys == x.fields.Keys && ShapeOfBlocker(y).f.Keys == y.fields.Keys;
      if key in x.fields {
        assert ShapeOfBlocker(x).f[key] == ShapeOfBlocker(y).f[key];
      }
    }
  }

  lemma SetFieldsAlike(x: Json, y: Json)
    requires ShapeOfBlocker(x) == ShapeOfBlocker(y)
    ensures Alike(StringSet(At(x, "missingFactIds"), MissingFactIds), StringSet(At(y, "missingFactIds"), MissingFactIds))
    ensures Alike(StringSet(At(x, "affectedBranches"), AffectedBranches), StringSet(At(y, "affectedBranches"), AffectedBranches))
  {
    FieldsAlike(x, y, "missingFactIds");
    FieldsAlike(x, y, "affectedBranches");
    StringSetsAlike(At(x, "missingFactIds"), At(y, "missingFactIds"), MissingFactIds);
    StringSetsAlike(At(x, "affectedBranches"), At(y, "affectedBranches"), AffectedBranches);
  }

  lemma ListFieldsAlike(x: Json, y: Json)
    requires ShapeOfBlocker(x) == ShapeOfBlocker(y)
    ensures Alike(ParseFacts(At(x, "discoverableFactsChecked")), ParseFacts(At(y, "discoverableFactsChecked")))
    ensures Alike(ParseOptions(At(x, "options")), ParseOptions(At(y, "options")))
  {
    FieldsAlike(x, y, "discoverableFactsChecked");
    FieldsAlike(x, y, "options");
    FactsAlike(At(x, "discoverableFactsChecked"), At(y, "discoverableFactsChecked"));
    OptionsAlike(At(x, "options"), At(y, "options"));
  }

  lemma TextFieldsAlike(x: Json, y: Json, key: string, of: Subject)
    requires ShapeOfBlocker(x) == ShapeOfBlocker(y)
    ensures NonBlank(At(x, key), of) == NonBlank(At(y, key), of)
  {
    FieldsAlike(x, y, key);
    TextsAlike(At(x, key), At(y, key), of);
  }

  lemma ListsAlike(x: Json, y: Json, known: set<string>, id: string, kind: string, decision: string)
    requires ShapeOfBlocker(x) == ShapeOfBlocker(y)
    ensures Alike(ParseLists(x, known, id, kind, decision), ParseLists(y, known, id, kind, decision))
  {
    hide LooseOf, ShapeOfBlocker, StringSet, ParseFacts, ParseOptions, NonBlank, At;
    SetFieldsAlike(x, y);
    ListFieldsAlike(x, y);
    TextFieldsAlike(x, y, "recommendedOptionId", RecommendedOptionId);
    TextFieldsAlike(x, y, "recommendationRationale", RecommendationRationale);
  }

  lemma BlockersAlike(x: Json, y: Json, known: set<string>)
    requires ShapeOfBlocker(x) == ShapeOfBlocker(y)
    ensures Alike(ParseBlocker(x, known), ParseBlocker(y, known))
  {
    TextFieldsAlike(x, y, "id", BlockerId);
    TextFieldsAlike(x, y, "kind", BlockerKind);
    TextFieldsAlike(x, y, "blockedDecision", BlockedDecision);
    assert ExactObject(x, Blocker, BLOCKER_KEYS) == ExactObject(y, Blocker, BLOCKER_KEYS) by {
      if x.Obj? {
        assert ShapeOfBlocker(x).f.Keys == x.fields.Keys && ShapeOfBlocker(y).f.Keys == y.fields.Keys;
      }
    }
    forall id, kind, decision ensures Alike(ParseLists(x, known, id, kind, decision), ParseLists(y, known, id, kind, decision)) {
      ListsAlike(x, y, known, id, kind, decision);
    }
    hide LooseOf, ShapeOfBlocker, ParseLists, NonBlank, At, ExactObject;
  }

  // ---------------------------------------------------------------- all blockers

  lemma ContributionsAlike(rules: RuleTable, known: set<string>, owner: string, x: Json, y: Json)
    requires ShapeOfBlocker(x) == ShapeOfBlocker(y)
    ensures Contribution(Listed(owner, x), WorkReader(rules, known)) == Contribution(Listed(owner, y), WorkReader(rules, known))
  {
    BlockersAlike(x, y, known);
    hide ShapeOfBlocker, ParseBlocker, Assess;
    var u, v := Listed(owner, x), Listed(owner, y);
    assert Alike(WorkKey(known, u), WorkKey(known, v));
    assert Alike(WorkValue(rules, known, u), WorkValue(rules, known, v));
    hide WorkKey, WorkValue;
  }

  lemma WorkAlike(rules: RuleTable, known: set<string>, owner: string, u: Json, v: Json)
    requires ShapeOfBlockers(u) == ShapeOfBlockers(v)
    ensures multiset(Contributions(WorkOf(owner, u), WorkReader(rules, known)))
         == multiset(Contributions(WorkOf(owner, v), WorkReader(rules, known)))
  {
    if u.Arr? {
      var reader, wu, wv := WorkReader(rules, known), WorkOf(owner, u), WorkOf(owner, v);
      var su, sv := Shapes(u.items), Shapes(v.items);
      hide WorkReader, WorkOf, Shapes;
      forall i, j | 0 <= i < |su| && 0 <= j < |sv| && su[i] == sv[j]
        ensures Contributions(wu, reader)[i] == Contributions(wv, reader)[j]
      {
        ContributionsAlike(rules, known, owner, u.items[i], v.items[j]);
      }
      Carried(su, Contributions(wu, reader), sv, Contributions(wv, reader));
    }
  }

  /** Two sets of branch inputs with the same branches, the same statuses, and blockers that differ in order only. */
  ghost predicate InputsAlike(a: map<string, BranchInput>, b: map<string, BranchInput>) {
    && a.Keys == b.Keys
    && forall k :: k in a ==> a[k].status == b[k].status && ShapeOfBlockers(a[k].blockers) == ShapeOfBlockers(b[k].blockers)
  }

  lemma ContributionsJoin(front: seq<Work>, back: seq<Work>, r: Reader<Work, Finding, DetectError>)
    ensures Contributions(front + back, r) == Contributions(front, r) + Contributions(back, r)
  {
  }

  lemma {:induction false} AllWorkAlike(rules: RuleTable, known: set<string>, owners: seq<string>,
                                        a: map<string, BranchInput>, b: map<string, BranchInput>)
    requires InputsAlike(a, b) && forall k :: 0 <= k < |owners| ==> owners[k] in a
    ensures multiset(Contributions(AllWork(owners, a), WorkReader(rules, known)))
         == multiset(Contributions(AllWork(owners, b), WorkReader(rules, known)))
  {
    if owners != [] {
      var front, last := owners[..|owners| - 1], owners[|owners| - 1];
      AllWorkAlike(rules, known, front, a, b);
      WorkAlike(rules, known, last, a[last].blockers, b[last].blockers);
      hide WorkReader, WorkOf, ShapeOfBlockers;
      ContributionsJoin(AllWork(front, a), WorkOf(last, a[last].blockers), WorkReader(rules, known));
      ContributionsJoin(AllWork(front, b), WorkOf(last, b[last].blockers), WorkReader(rules, known));
    }
  }

  lemma FindingsAlike(rules: RuleTable, a: map<string, BranchInput>, b: map<string, BranchInput>)
    requires InputsAlike(a, b)
    ensures Alike(FindAll(rules, a), FindAll(rules, b))
  {
    OwnersKnown(a);
    var owners := Ascend(a.Keys);
    AllWorkAlike(rules, a.Keys, owners, a, b);
    hide Ascend, AllWork, WorkReader, Contributions, InputsAlike;
    ReadUnordered(AllWork(owners, a), WorkReader(rules, a.Keys), AllWork(owners, b), WorkReader(rules, a.Keys));
  }

  // ---------------------------------------------------------------- the branches

  datatype ShapedInput = ShapedInput(status: string, blockers: BlockersShape)

  ghost function Shaped(branch: Json): ShapedInput {
    ShapedInput(InputOf(branch).status, ShapeOfBlockers(InputOf(branch).blockers))
  }

  ghost function ShapedReader(): Reader<Json, ShapedInput, DetectError> {
    Reader(BranchKey, branch => Ok(Shaped(branch)), id => Repeated(BranchId, id))
  }

  /** Reading the inputs and reading their shapes go together. */
  lemma {:induction false} ShapedRead(items: seq<Json>)
    ensures Read(items, BranchReader()).Ok? <==> Read(items, ShapedReader()).Ok?
    ensures Read(items, BranchReader()).Ok? ==>
              var m, s := Read(items, BranchReader()).value, Read(items, ShapedReader()).value;
              m.Keys == s.Keys && forall k :: k in m ==> s[k] == ShapedInput(m[k].status, ShapeOfBlockers(m[k].blockers))
  {
    if items != [] {
      ShapedRead(items[..|items| - 1]);
      hide BranchKey, InputOf, ShapeOfBlockers;
    }
  }

  lemma BranchFields(x: Json, y: Json, key: string)
    requires ShapeOfBranch(x) == ShapeOfBranch(y) && key != "blockers"
    ensures At(x, key) == At(y, key)
  {
    if x.Obj? {
      assert (x.fields - {"blockers"}) == (y.fields - {"blockers"});
      if key in x.fields {
        assert key in x.fields - {"blockers"};
      }
      if key in y.fields {
        assert key in y.fields - {"blockers"};
      }
    }
  }

  lemma BranchKeys(x: Json, y: Json)
    requires ShapeOfBranch(x) == ShapeOfBranch(y) && x.Obj?
    ensures y.Obj? && x.fields.Keys == y.fields.Keys
  {
    var X, Y := x.fields, y.fields;
    assert X.Keys == (X - {"blockers"}).Keys + if "blockers" in X then {"blockers"} else {};
    assert Y.Keys == (Y - {"blockers"}).Keys + if "blockers" in Y then {"blockers"} else {};
  }

  lemma BranchesAlike(x: Json, y: Json)
    requires ShapeOfBranch(x) == ShapeOfBranch(y)
    ensures Contribution(x, ShapedReader()) == Contribution(y, ShapedReader())
  {
    BranchFields(x, y, "branchId");
    BranchFields(x, y, "status");
    if x.Obj? {
      BranchKeys(x, y);
      hide ShapeOfBlockers;
      assert BranchKey(x) == BranchKey(y);
      assert BranchKey(x).Ok? ==> ShapeOfBlockers(At(x, "blockers")) == ShapeOfBlockers(At(y, "blockers"));
    }
  }

  lemma BranchReadsAlike(a: Json, b: Json)
    requires Reordered(a, b)
    ensures ReadBranches(a).Ok? <==> ReadBranches(b).Ok?
    ensures ReadBranches(a).Ok? ==> InputsAlike(ReadBranches(a).value, ReadBranches(b).value)
  {
    var x, y := a.fields["branches"].items, b.fields["branches"].items;
    var sx, sy := BranchShapes(x), BranchShapes(y);
    forall i, j | 0 <= i < |sx| && 0 <= j < |sy| && sx[i] == sy[j]
      ensures Contributions(x, ShapedReader())[i] == Contributions(y, ShapedReader())[j]
    {
      BranchesAlike(x[i], y[j]);
    }
    Carried(sx, Contributions(x, ShapedReader()), sy, Contributions(y, ShapedReader()));
    ReadUnordered(x, ShapedReader(), y, ShapedReader());
    ShapedRead(x);
    ShapedRead(y);
    RequestFields(a, b);
    hide BranchShapes, Contributions, ShapedReader, BranchReader;
  }

  lemma RequestFields(a: Json, b: Json)
    requires Reordered(a, b)
    ensures a.fields.Keys == b.fields.Keys && At(a, "schema") == At(b, "schema")
  {
    assert a.fields.Keys == (a.fields - {"branches"}).Keys + {"branches"};
    assert b.fields.Keys == (b.fields - {"branches"}).Keys + {"branches"};
    if "schema" in a.fields {
      assert "schema" in a.fields - {"branches"};
    }
    if "schema" in b.fields {
      assert "schema" in b.fields - {"branches"};
    }
  }

  // ---------------------------------------------------------------- the promise

  /** Reordering a request changes neither whether it is accepted nor what is detected. */
  lemma DetectionUnordered(rules: RuleTable, a: Json, b: Json)
    requires Reordered(a, b)
    ensures Alike(Detected(rules, a), Detected(rules, b))
  {
    BranchReadsAlike(a, b);
    hide Reordered, ReadBranches, FindAll, DetectionOf, InputsAlike;
    if ReadBranches(a).Err? {
      assert Detected(rules, a).Err? && Detected(rules, b).Err?;
    } else {
      var x, y := ReadBranches(a).value, ReadBranches(b).value;
      FindingsAlike(rules, x, y);
      if FindAll(rules, x).Err? {
        assert Detected(rules, a).Err? && Detected(rules, b).Err?;
      } else {
        var findings := FindAll(rules, x).value;
        ReportsAlike(findings, x, y);
        assert Detected(rules, a) == Ok(DetectionOf(findings, x));
        assert Detected(rules, b) == Ok(DetectionOf(findings, y));
      }
    }
  }

  lemma ReportsAlike(findings: map<string, Finding>, a: map<string, BranchInput>, b: map<string, BranchInput>)
    requires InputsAlike(a, b)
    ensures DetectionOf(findings, a) == DetectionOf(findings, b)
  {
    hide Report, ShapeOfBlockers;
  }
}
