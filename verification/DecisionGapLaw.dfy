/** What decision-gap detection reports of each blocker and each branch, read off the request itself. */
module DecisionGapLaw {
  import opened DecisionGap
  import opened Json
  import opened KeyedLists
  import opened Lexical
  import opened Text

  // ---------------------------------------------------------------- what a blocker says

  /** A fact is missing when a check of it says so, or when the blocker names it as missing. */
  ghost predicate MissingFact(blocker: Json, id: string) {
    var checks, named := At(blocker, "discoverableFactsChecked"), At(blocker, "missingFactIds");
    || (checks.Arr? && exists j :: 0 <= j < |checks.items| && Says(checks.items[j], id, "missing"))
    || (named.Arr? && Str(id) in named.items)
  }

  predicate Says(check: Json, id: string, status: string) {
    At(check, "factId") == Str(id) && At(check, "status") == Str(status)
  }

  /** The branches a blocker names; the one that lists it when it names none. */
  ghost predicate Touches(blocker: Json, owner: string, branch: string) {
    var named := At(blocker, "affectedBranches");
    named.Arr? && if named.items == [] then branch == owner else Str(branch) in named.items
  }

  /** A map of entries by the id each carries in a field, holding exactly the entries of a list. */
  ghost predicate ById(entries: map<string, Json>, list: Json, field: string) {
    && list.Arr?
    && (forall entry :: entry in list.items ==> At(entry, field).Str? && At(entry, field).text in entries && entries[At(entry, field).text] == entry)
    && (forall id :: id in entries ==> entries[id] in list.items && At(entries[id], field) == Str(id))
  }

  /** A finding says of its blocker what the blocker says. */
  ghost predicate Reports(f: Finding, blocker: Json, owner: string) {
    && Str(f.kind) == At(blocker, "kind")
    && (forall branch :: branch in f.affected <==> Touches(blocker, owner, branch))
    && (f.FactDiscovery? <==> exists id :: MissingFact(blocker, id))
    && match f
       case FactDiscovery(_, missing, _) => forall id :: id in missing <==> MissingFact(blocker, id)
       case Gap(_, decision, facts, options, recommended, rationale, _) =>
         && Str(decision) == At(blocker, "blockedDecision")
         && ById(facts, At(blocker, "discoverableFactsChecked"), "factId") && facts != map[]
         && ById(options, At(blocker, "options"), "id") && |options| >= 2
         && Str(recommended) == At(blocker, "recommendedOptionId") && recommended in options
         && Str(rationale) == At(blocker, "recommendationRationale")
  }

  // ---------------------------------------------------------------- reading is what it says

  lemma IdsRead(v: Json, of: Subject)
    ensures StringSet(v, of).Ok? ==> v.Arr? && forall s :: s in StringSet(v, of).value <==> Str(s) in v.items
  {
    if StringSet(v, of).Ok? {
      var items, r := v.items, IdReader(of);
      var m := Read(items, r).value;
      hide Read, IsBlank;
      forall s | s in m ensures Str(s) in items {
        var i := ReadSource(items, r, s);
        assert items[i] == Str(s);
      }
      forall s | Str(s) in items ensures s in m {
        var i :| 0 <= i < |items| && items[i] == Str(s);
        ReadItem(items, r, i);
      }
    }
  }

  lemma FactsRead(v: Json)
    ensures ParseFacts(v).Ok? ==> ById(ParseFacts(v).value, v, "factId")
    ensures ParseFacts(v).Ok? ==> forall entry :: entry in v.items ==> At(entry, "status") == Str("resolved") || At(entry, "status") == Str("missing")
  {
    if ParseFacts(v).Ok? {
      var items, r := v.items, FactReader();
      var m := ParseFacts(v).value;
      assert Read(items, r) == Ok(m);
      hide Read, ParseFacts;
      forall entry | entry in items
        ensures At(entry, "factId").Str? && At(entry, "factId").text in m && m[At(entry, "factId").text] == entry
        ensures At(entry, "status") == Str("resolved") || At(entry, "status") == Str("missing")
      {
        var i :| 0 <= i < |items| && items[i] == entry;
        ReadItem(items, r, i);
        FactKeySays(entry);
        hide FactKey;
      }
      forall id | id in m ensures m[id] in items && At(m[id], "factId") == Str(id) {
        var i := ReadSource(items, r, id);
        FactKeySays(items[i]);
        hide FactKey;
      }
    }
  }

  lemma FactKeySays(entry: Json)
    ensures FactKey(entry).Ok? ==> At(entry, "factId") == Str(FactKey(entry).value)
    ensures FactKey(entry).Ok? ==> At(entry, "status") == Str("resolved") || At(entry, "status") == Str("missing")
  {
    hide IsBlank;
  }

  lemma OptionsRead(v: Json)
    ensures ParseOptions(v).Ok? ==> ById(ParseOptions(v).value, v, "id")
  {
    if ParseOptions(v).Ok? {
      var items, r := v.items, OptionReader();
      var m := ParseOptions(v).value;
      assert Read(items, r) == Ok(m);
      hide Read, ParseOptions;
      forall entry | entry in items ensures At(entry, "id").Str? && At(entry, "id").text in m && m[At(entry, "id").text] == entry {
        var i :| 0 <= i < |items| && items[i] == entry;
        ReadItem(items, r, i);
        OptionKeySays(entry);
        hide OptionKey;
      }
      forall id | id in m ensures m[id] in items && At(m[id], "id") == Str(id) {
        var i := ReadSource(items, r, id);
        OptionKeySays(items[i]);
        hide OptionKey;
      }
    }
  }

  lemma OptionKeySays(entry: Json)
    ensures OptionKey(entry).Ok? ==> At(entry, "id") == Str(OptionKey(entry).value)
  {
    hide IsBlank;
  }

  /** A parsed blocker holds what the document holds. */
  ghost predicate Parses(p: Parsed, blocker: Json) {
    && Str(p.id) == At(blocker, "id") && Str(p.kind) == At(blocker, "kind") && Str(p.decision) == At(blocker, "blockedDecision")
    && ById(p.facts, At(blocker, "discoverableFactsChecked"), "factId") && ById(p.options, At(blocker, "options"), "id")
    && Str(p.recommended) == At(blocker, "recommendedOptionId") && Str(p.rationale) == At(blocker, "recommendationRationale")
    && At(blocker, "missingFactIds").Arr? && (forall s :: s in p.missing <==> Str(s) in At(blocker, "missingFactIds").items)
    && At(blocker, "affectedBranches").Arr? && (forall s :: s in p.affected <==> Str(s) in At(blocker, "affectedBranches").items)
    && (forall x :: x in At(blocker, "affectedBranches").items ==> x.Str?)
  }

  lemma TextsOnly(v: Json, of: Subject)
    ensures StringSet(v, of).Ok? ==> v.Arr? && forall x :: x in v.items ==> x.Str?
  {
    if StringSet(v, of).Ok? {
      forall x | x in v.items ensures x.Str? {
        var i :| 0 <= i < |v.items| && v.items[i] == x;
        ReadItem(v.items, IdReader(of), i);
      }
    }
  }

  lemma BlockerParses(blocker: Json, known: set<string>)
    ensures ParseBlocker(blocker, known).Ok? ==> Parses(ParseBlocker(blocker, known).value, blocker)
  {
    IdsRead(At(blocker, "missingFactIds"), MissingFactIds);
    IdsRead(At(blocker, "affectedBranches"), AffectedBranches);
    TextsOnly(At(blocker, "affectedBranches"), AffectedBranches);
    FactsRead(At(blocker, "discoverableFactsChecked"));
    OptionsRead(At(blocker, "options"));
    hide StringSet, ParseFacts, ParseOptions, ById, BLOCKER_KEYS, IsBlank, At;
  }

  lemma UnresolvedSays(p: Parsed, blocker: Json)
    requires Parses(p, blocker)
    ensures forall id :: id in Unresolved(p) <==> MissingFact(blocker, id)
  {
    var checks := At(blocker, "discoverableFactsChecked");
    forall id ensures id in Unresolved(p) <==> MissingFact(blocker, id) {
      if id in p.facts && At(p.facts[id], "status") == Str("missing") {
        var j :| 0 <= j < |checks.items| && checks.items[j] == p.facts[id];
        assert Says(checks.items[j], id, "missing");
      }
      if j :| 0 <= j < |checks.items| && Says(checks.items[j], id, "missing") {
        assert checks.items[j] in checks.items;
      }
    }
  }

  lemma AssessReports(rules: RuleTable, owner: string, p: Parsed, blocker: Json)
    requires Parses(p, blocker) && Assess(rules, owner, p).Ok?
    ensures Reports(Assess(rules, owner, p).value, blocker, owner)
  {
    UnresolvedSays(p, blocker);
    AffectedSays(p, blocker);
    hide Unresolved, MissingFact, ById, At;
    assert Unresolved(p) != {} <==> exists id :: id in Unresolved(p);
  }

  /** When a parsed blocker is accepted: of a known kind, and either with missing facts or a complete choice. */
  lemma AssessExactly(rules: RuleTable, owner: string, p: Parsed)
    ensures Assess(rules, owner, p).Ok?
       <==> && (p.kind in rules.choiceKinds || p.kind in rules.factKinds)
            && (|| (exists id :: id in Unresolved(p))
                || (p.kind !in rules.factKinds && p.facts != map[] && |p.options| >= 2 && p.recommended in p.options && p.affected != {}))
  {
    hide At;
    assert Unresolved(p) != {} <==> exists id :: id in Unresolved(p);
  }

  lemma AffectedSays(p: Parsed, blocker: Json)
    requires Parses(p, blocker)
    ensures p.affected == {} <==> At(blocker, "affectedBranches").items == []
  {
    var items := At(blocker, "affectedBranches").items;
    if items != [] {
      assert items[0] in items && items[0] == Str(items[0].text);
      assert items[0].text in p.affected;
    }
    hide ById;
  }

  /** Every listed blocker of an accepted request has a finding under its id, and the finding says what the blocker says. */
  lemma FindingSays(rules: RuleTable, request: Json, inputs: map<string, BranchInput>, findings: map<string, Finding>, owner: string, i: nat)
    requires Found(rules, request, inputs, findings) && owner in inputs
    requires inputs[owner].blockers.Arr? && i < |inputs[owner].blockers.items|
    ensures var blocker := inputs[owner].blockers.items[i];
            && At(blocker, "id").Str? && At(blocker, "id").text in findings
            && Reports(findings[At(blocker, "id").text], blocker, owner)
  {
    var known, blocker := inputs.Keys, inputs[owner].blockers.items[i];
    var n := WorkPlace(inputs, owner, i);
    var work := AllWork(Ascend(inputs.Keys), inputs);
    BlockerParses(blocker, known);
    ParsedId(blocker, known);
    hide ReadBranches, AllWork, Read, ParseBlocker, Assess, WorkReader, Ascend, Reports;
    ReadItem(work, WorkReader(rules, known), n);
    WorkRead(rules, known, work[n]);
    AssessReports(rules, owner, ParseBlocker(blocker, known).value, blocker);
    hide Parses, ById;
  }

  // ---------------------------------------------------------------- what a branch is told

  /** A branch's status: blocked by a gap, else waiting for facts, else as it came. */
  lemma StatusTold(rules: RuleTable, request: Json, d: Detection, inputs: map<string, BranchInput>, branch: string)
    requires Detected(rules, request) == Ok(d) && ReadBranches(request) == Ok(inputs) && branch in inputs
    ensures branch in d.branches
    ensures var blocked := exists id :: id in d.gaps && branch in d.gaps[id].affected;
            var waiting := exists id :: id in d.factDiscovery && branch in d.factDiscovery[id].affected;
            d.branches[branch].status == if blocked then "blocked_decision_gap" else if waiting then "fact_discovery_required" else inputs[branch].status
  {
    BranchesToldExactly(rules, request, d);
    var found, findings := DetectionFound(rules, request);
    hide Detected, ReadBranches, Found;
    var report := d.branches[branch];
    assert report == Report(findings, branch, inputs[branch].status);
    assert report.gapIds != {} <==> exists id :: id in report.gapIds;
    assert report.factIds != {} <==> exists id :: id in report.factIds;
  }

  /** The branches read are those listed, each once, with its status and its blockers. */
  lemma BranchesRead(request: Json, inputs: map<string, BranchInput>)
    requires ReadBranches(request) == Ok(inputs)
    ensures var list := At(request, "branches");
            && list.Arr?
            && (forall branch :: branch in list.items ==>
                  && At(branch, "branchId").Str? && At(branch, "branchId").text in inputs
                  && Str(inputs[At(branch, "branchId").text].status) == At(branch, "status")
                  && inputs[At(branch, "branchId").text].blockers == At(branch, "blockers"))
            && (forall id :: id in inputs ==> exists branch :: branch in list.items && At(branch, "branchId") == Str(id))
  {
    var items, r := At(request, "branches").items, BranchReader();
    assert Read(items, r) == Ok(inputs);
    hide Read, ReadBranches;
    forall branch | branch in items
      ensures At(branch, "branchId").Str? && At(branch, "branchId").text in inputs
      ensures Str(inputs[At(branch, "branchId").text].status) == At(branch, "status")
      ensures inputs[At(branch, "branchId").text].blockers == At(branch, "blockers")
    {
      var i :| 0 <= i < |items| && items[i] == branch;
      ReadItem(items, r, i);
      BranchKeySays(branch);
      hide BranchKey;
    }
    forall id | id in inputs ensures exists branch :: branch in items && At(branch, "branchId") == Str(id) {
      var i := ReadSource(items, r, id);
      BranchKeySays(items[i]);
      hide BranchKey;
    }
  }

  lemma BranchKeySays(branch: Json)
    ensures BranchKey(branch).Ok? ==> At(branch, "branchId") == Str(BranchKey(branch).value)
    ensures BranchKey(branch).Ok? ==> At(branch, "status") == Str("completed") || At(branch, "status") == Str("pending")
  {
    hide IsBlank;
  }
}
