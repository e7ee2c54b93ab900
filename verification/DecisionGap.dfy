/** Decision-gap detection: blockers become open decisions or facts to discover, and branches learn what blocks them. */
module DecisionGap {
  import opened Json
  import opened KeyedLists
  import opened Lexical
  import opened Text

  datatype RuleTable = RuleTable(choiceKinds: set<string>, factKinds: set<string>)

  /** The value a diagnostic is about. */
  datatype Subject =
    | Request | Branch | BranchId | BranchStatus | Blocker | BlockerId | BlockerKind | BlockedDecision
    | MissingFactIds | AffectedBranches | FactCheck | FactId | FactStatus | Choice | OptionId | OptionLabel
    | OptionConsequence | RecommendedOptionId | RecommendationRationale

  datatype DetectError =
    | NotAnObject(of: Subject) | InvalidFields(of: Subject) | Blank(of: Subject) | NotAList(of: Subject)
    | Repeated(of: Subject, id: string) | SchemaInvalid | BranchesNotAnArray | StatusInvalid | BlockersNotAnArray(owner: string)
    | UnknownBranch(blocker: string) | FactsNotAnArray | OptionsNotAnArray | FactStatusInvalid
    | UnknownKind(kind: string) | NoUnresolvedFact(blocker: string) | NoFactsChecked(blocker: string)
    | TooFewOptions(blocker: string) | UnknownRecommendation(blocker: string) | NoAffectedBranch(blocker: string)

  // ---------------------------------------------------------------- reading values

  function ExactObject(v: Json, of: Subject, keys: set<string>): Option<DetectError> {
    if !v.Obj? then Some(NotAnObject(of)) else if v.fields.Keys != keys then Some(InvalidFields(of)) else None
  }

  function NonBlank(v: Json, of: Subject): Result<string, DetectError> {
    if v.Str? && !IsBlank(v.text) then Ok(v.text) else Err(Blank(of))
  }

  function IdReader(of: Subject): Reader<Json, (), DetectError> {
    Reader(v => NonBlank(v, of), _ => Ok(()), id => Repeated(of, id))
  }

  function StringSet(v: Json, of: Subject): Result<set<string>, DetectError> {
    if !v.Arr? then Err(NotAList(of))
    else match Read(v.items, IdReader(of)) case Err(e) => Err(e) case Ok(m) => Ok(m.Keys)
  }

  function FactKey(entry: Json): Result<string, DetectError> {
    match ExactObject(entry, FactCheck, {"factId", "status"})
    case Some(e) => Err(e)
    case None =>
      match NonBlank(At(entry, "factId"), FactId)
      case Err(e) => Err(e)
      case Ok(id) =>
        match NonBlank(At(entry, "status"), FactStatus)
        case Err(e) => Err(e)
        case Ok(status) => if status == "resolved" || status == "missing" then Ok(id) else Err(FactStatusInvalid)
  }

  function FactReader(): Reader<Json, Json, DetectError> {
    Reader(FactKey, entry => Ok(entry), id => Repeated(FactCheck, id))
  }

  function ParseFacts(v: Json): Result<map<string, Json>, DetectError> {
    if !v.Arr? then Err(FactsNotAnArray) else Read(v.items, FactReader())
  }

  function OptionKey(entry: Json): Result<string, DetectError> {
    match ExactObject(entry, Choice, {"id", "label", "consequence"})
    case Some(e) => Err(e)
    case None =>
      match NonBlank(At(entry, "id"), OptionId)
      case Err(e) => Err(e)
      case Ok(id) =>
        match NonBlank(At(entry, "label"), OptionLabel)
        case Err(e) => Err(e)
        case Ok(_) => match NonBlank(At(entry, "consequence"), OptionConsequence) case Err(e) => Err(e) case Ok(_) => Ok(id)
  }

  function OptionReader(): Reader<Json, Json, DetectError> {
    Reader(OptionKey, entry => Ok(entry), id => Repeated(Choice, id))
  }

  function ParseOptions(v: Json): Result<map<string, Json>, DetectError> {
    if !v.Arr? then Err(OptionsNotAnArray) else Read(v.items, OptionReader())
  }

  // ---------------------------------------------------------------- one blocker

  datatype Parsed = Parsed(id: string, kind: string, decision: string, facts: map<string, Json>, missing: set<string>,
                           options: map<string, Json>, recommended: string, rationale: string, affected: set<string>)

  const BLOCKER_KEYS := {"id", "kind", "blockedDecision", "discoverableFactsChecked", "missingFactIds", "options",
                         "recommendedOptionId", "recommendationRationale", "affectedBranches"}

  function ParseBlocker(v: Json, known: set<string>): Result<Parsed, DetectError> {
    match ExactObject(v, Blocker, BLOCKER_KEYS)
    case Some(e) => Err(e)
    case None =>
      match NonBlank(At(v, "id"), BlockerId)
      case Err(e) => Err(e)
      case Ok(id) =>
        match NonBlank(At(v, "kind"), BlockerKind)
        case Err(e) => Err(e)
        case Ok(kind) =>
          match NonBlank(At(v, "blockedDecision"), BlockedDecision)
          case Err(e) => Err(e)
          case Ok(decision) => ParseLists(v, known, id, kind, decision)
  }

  function ParseLists(v: Json, known: set<string>, id: string, kind: string, decision: string): Result<Parsed, DetectError> {
    match StringSet(At(v, "missingFactIds"), MissingFactIds)
    case Err(e) => Err(e)
    case Ok(missing) =>
      match StringSet(At(v, "affectedBranches"), AffectedBranches)
      case Err(e) => Err(e)
      case Ok(affected) =>
        if !(affected <= known) then Err(UnknownBranch(id))
        else
          match ParseFacts(At(v, "discoverableFactsChecked"))
          case Err(e) => Err(e)
          case Ok(facts) =>
            match ParseOptions(At(v, "options"))
            case Err(e) => Err(e)
            case Ok(options) =>
              match NonBlank(At(v, "recommendedOptionId"), RecommendedOptionId)
              case Err(e) => Err(e)
              case Ok(recommended) =>
                match NonBlank(At(v, "recommendationRationale"), RecommendationRationale)
                case Err(e) => Err(e)
                case Ok(rationale) => Ok(Parsed(id, kind, decision, facts, missing, options, recommended, rationale, affected))
  }

  /** What a blocker turns out to be: a decision that needs authority, or facts still to be discovered. */
  datatype Finding =
    | Gap(kind: string, decision: string, facts: map<string, Json>, options: map<string, Json>, recommended: string,
          rationale: string, affected: set<string>)
    | FactDiscovery(kind: string, missing: set<string>, affected: set<string>)

  function Unresolved(p: Parsed): set<string> {
    (set id | id in p.facts && At(p.facts[id], "status") == Str("missing")) + p.missing
  }

  function Assess(rules: RuleTable, owner: string, p: Parsed): Result<Finding, DetectError> {
    var unresolved := Unresolved(p);
    if p.kind !in rules.choiceKinds && p.kind !in rules.factKinds then Err(UnknownKind(p.kind))
    else if p.kind in rules.factKinds && unresolved == {} then Err(NoUnresolvedFact(p.id))
    else if unresolved != {} then Ok(FactDiscovery(p.kind, unresolved, if p.affected == {} then {owner} else p.affected))
    else if p.facts == map[] then Err(NoFactsChecked(p.id))
    else if |p.options| < 2 then Err(TooFewOptions(p.id))
    else if p.recommended !in p.options then Err(UnknownRecommendation(p.id))
    else if p.affected == {} then Err(NoAffectedBranch(p.id))
    else Ok(Gap(p.kind, p.decision, p.facts, p.options, p.recommended, p.rationale, p.affected))
  }

  // ---------------------------------------------------------------- branches

  datatype BranchInput = BranchInput(status: string, blockers: Json)

  function BranchKey(branch: Json): Result<string, DetectError> {
    match ExactObject(branch, Branch, {"branchId", "status", "blockers"})
    case Some(e) => Err(e)
    case None =>
      match NonBlank(At(branch, "branchId"), BranchId)
      case Err(e) => Err(e)
      case Ok(id) =>
        match NonBlank(At(branch, "status"), BranchStatus)
        case Err(e) => Err(e)
        case Ok(status) => if status == "completed" || status == "pending" then Ok(id) else Err(StatusInvalid)
  }

  function InputOf(branch: Json): BranchInput {
    BranchInput(if At(branch, "status").Str? then At(branch, "status").text else "", At(branch, "blockers"))
  }

  function BranchReader(): Reader<Json, BranchInput, DetectError> {
    Reader(BranchKey, branch => Ok(InputOf(branch)), id => Repeated(BranchId, id))
  }

  function ReadBranches(request: Json): Result<map<string, BranchInput>, DetectError> {
    match ExactObject(request, Request, {"schema", "branches"})
    case Some(e) => Err(e)
    case None =>
      if At(request, "schema") != Str("code-intel-decision-gap-detection-request.v1") then Err(SchemaInvalid)
      else if !At(request, "branches").Arr? then Err(BranchesNotAnArray)
      else Read(At(request, "branches").items, BranchReader())
  }

  // ---------------------------------------------------------------- all blockers

  /** The blockers in the order they are visited, each with the branch that lists it. */
  datatype Work = Listed(owner: string, blocker: Json) | Unlisted(owner: string)

  function WorkOf(owner: string, blockers: Json): (w: seq<Work>)
    ensures blockers.Arr? ==> |w| == |blockers.items| && forall i :: 0 <= i < |w| ==> w[i] == Listed(owner, blockers.items[i])
  {
    if blockers.Arr? then seq(|blockers.items|, i requires 0 <= i < |blockers.items| => Listed(owner, blockers.items[i]))
    else [Unlisted(owner)]
  }

  function AllWork(owners: seq<string>, inputs: map<string, BranchInput>): seq<Work>
    requires forall k :: 0 <= k < |owners| ==> owners[k] in inputs
  {
    if owners == [] then []
    else AllWork(owners[..|owners| - 1], inputs) + WorkOf(owners[|owners| - 1], inputs[owners[|owners| - 1]].blockers)
  }

  function WorkKey(known: set<string>, w: Work): Result<string, DetectError> {
    match w
    case Unlisted(owner) => Err(BlockersNotAnArray(owner))
    case Listed(_, blocker) => match ParseBlocker(blocker, known) case Err(e) => Err(e) case Ok(p) => Ok(p.id)
  }

  function WorkValue(rules: RuleTable, known: set<string>, w: Work): Result<Finding, DetectError> {
    match w
    case Unlisted(owner) => Err(BlockersNotAnArray(owner))
    case Listed(owner, blocker) =>
      match ParseBlocker(blocker, known) case Err(e) => Err(e) case Ok(p) => Assess(rules, owner, p)
  }

  function WorkReader(rules: RuleTable, known: set<string>): Reader<Work, Finding, DetectError> {
    Reader(w => WorkKey(known, w), w => WorkValue(rules, known, w), id => Repeated(BlockerId, id))
  }

  // ---------------------------------------------------------------- the result

  datatype BranchReport = BranchReport(status: string, gapIds: set<string>, factIds: set<string>)

  datatype Detection = Detection(gaps: map<string, Finding>, factDiscovery: map<string, Finding>, branches: map<string, BranchReport>)

  function Gaps(findings: map<string, Finding>): map<string, Finding> {
    map id | id in findings && findings[id].Gap? :: findings[id]
  }

  function Discoveries(findings: map<string, Finding>): map<string, Finding> {
    map id | id in findings && findings[id].FactDiscovery? :: findings[id]
  }

  /** The findings among some that affect a branch. */
  function Affecting(findings: map<string, Finding>, branch: string): set<string> {
    set id | id in findings && branch in findings[id].affected
  }

  function Report(findings: map<string, Finding>, branch: string, status: string): BranchReport {
    Told(Affecting(Gaps(findings), branch), Affecting(Discoveries(findings), branch), status)
  }

  /** A branch is blocked by any gap, waits for any facts, and otherwise keeps the status it came with. */
  function Told(gapIds: set<string>, factIds: set<string>, status: string): BranchReport {
    BranchReport(if gapIds != {} then "blocked_decision_gap" else if factIds != {} then "fact_discovery_required" else status,
                 gapIds, factIds)
  }

  function Reports(findings: map<string, Finding>, inputs: map<string, BranchInput>): map<string, BranchReport> {
    map branch | branch in inputs :: Report(findings, branch, inputs[branch].status)
  }

  function FindAll(rules: RuleTable, inputs: map<string, BranchInput>): Result<map<string, Finding>, DetectError> {
    assert forall k :: 0 <= k < |Ascend(inputs.Keys)| ==> Ascend(inputs.Keys)[k] in inputs.Keys;
    Read(AllWork(Ascend(inputs.Keys), inputs), WorkReader(rules, inputs.Keys))
  }

  function Detected(rules: RuleTable, request: Json): Result<Detection, DetectError> {
    match ReadBranches(request)
    case Err(e) => Err(e)
    case Ok(inputs) =>
      match FindAll(rules, inputs)
      case Err(e) => Err(e)
      case Ok(findings) => Ok(DetectionOf(findings, inputs))
  }

  function DetectionOf(findings: map<string, Finding>, inputs: map<string, BranchInput>): Detection {
    Detection(Gaps(findings), Discoveries(findings), Reports(findings, inputs))
  }

  // ---------------------------------------------------------------- detection in loops

  function LookUp(index: map<string, set<string>>, branch: string): set<string> {
    if branch in index then index[branch] else {}
  }

  /** Enters an id under each of some branches. */
  method Enter(index: map<string, set<string>>, branches: set<string>, id: string) returns (entered: map<string, set<string>>)
    ensures forall b :: LookUp(entered, b) == LookUp(index, b) + if b in branches then {id} else {}
  {
    var order := Ascend(branches);
    hide Ascend, Ascending;
    entered := index;
    ghost var done: set<string> := {};
    for i := 0 to |order|
      invariant forall k :: 0 <= k < i ==> order[k] in done
      invariant forall b :: b in done ==> b in order
      invariant forall b :: LookUp(entered, b) == LookUp(index, b) + if b in done then {id} else {}
    {
      entered := entered[order[i] := LookUp(entered, order[i]) + {id}];
      done := done + {order[i]};
    }
    assert done == branches;
  }

  datatype Tally = Tally(blockerIds: set<string>, gaps: map<string, Finding>, factDiscovery: map<string, Finding>,
                         branchGapIds: map<string, set<string>>, branchFactIds: map<string, set<string>>)

  /** The running maps say what the findings so far say. */
  ghost predicate Tallies(t: Tally, findings: map<string, Finding>) {
    && t.blockerIds == findings.Keys && t.gaps == Gaps(findings) && t.factDiscovery == Discoveries(findings)
    && (forall b :: LookUp(t.branchGapIds, b) == Affecting(Gaps(findings), b))
    && (forall b :: LookUp(t.branchFactIds, b) == Affecting(Discoveries(findings), b))
  }

  method Record(t: Tally, id: string, f: Finding, ghost findings: map<string, Finding>) returns (next: Tally)
    requires Tallies(t, findings) && id !in findings
    ensures Tallies(next, findings[id := f])
  {
    if f.Gap? {
      var index := Enter(t.branchGapIds, f.affected, id);
      next := t.(blockerIds := t.blockerIds + {id}, gaps := t.gaps[id := f], branchGapIds := index);
    } else {
      var index := Enter(t.branchFactIds, f.affected, id);
      next := t.(blockerIds := t.blockerIds + {id}, factDiscovery := t.factDiscovery[id := f], branchFactIds := index);
    }
    FindingAdded(findings, id, f);
  }

  lemma FindingAdded(findings: map<string, Finding>, id: string, f: Finding)
    requires id !in findings
    ensures var more := findings[id := f];
            && Gaps(more) == (if f.Gap? then Gaps(findings)[id := f] else Gaps(findings))
            && Discoveries(more) == (if f.FactDiscovery? then Discoveries(findings)[id := f] else Discoveries(findings))
            && forall b :: Affecting(Gaps(more), b) == Affecting(Gaps(findings), b) + (if f.Gap? && b in f.affected then {id} else {})
                        && Affecting(Discoveries(more), b)
                        == Affecting(Discoveries(findings), b) + (if f.FactDiscovery? && b in f.affected then {id} else {})
  {
  }

  lemma WorkStops(prefix: seq<Work>, work: seq<Work>, r: Reader<Work, Finding, DetectError>)
    requires prefix <= work && Read(prefix, r).Err?
    ensures Read(work, r) == Read(prefix, r)
  {
    assert work[..|prefix|] == prefix;
    ReadStops(work, r, |prefix|);
  }

  lemma {:induction false} AllWorkPrefix(owners: seq<string>, inputs: map<string, BranchInput>, n: nat)
    requires n <= |owners| && forall k :: 0 <= k < |owners| ==> owners[k] in inputs
    ensures AllWork(owners[..n], inputs) <= AllWork(owners, inputs)
    decreases |owners|
  {
    if n == |owners| {
      assert owners[..n] == owners;
    } else {
      assert owners[..|owners| - 1][..n] == owners[..n];
      AllWorkPrefix(owners[..|owners| - 1], inputs, n);
    }
  }

  /** The outcome of a loop is the outcome of reading the work it covers, the tally saying what the findings say. */
  ghost predicate Follows(r: Result<Tally, DetectError>, read: Result<map<string, Finding>, DetectError>) {
    match read
    case Err(e) => r == Err(e)
    case Ok(findings) => r.Ok? && Tallies(r.value, findings)
  }

  /** One blocker: parsed, new, of a known kind, and either a gap or facts to discover. */
  method VisitBlocker(rules: RuleTable, known: set<string>, owner: string, blocker: Json, t: Tally, ghost done: seq<Work>)
    returns (r: Result<Tally, DetectError>)
    requires Follows(Ok(t), Read(done, WorkReader(rules, known)))
    ensures Follows(r, Read(done + [Listed(owner, blocker)], WorkReader(rules, known)))
  {
    ghost var next := done + [Listed(owner, blocker)];
    assert next[..|next| - 1] == done;
    var parsed := ParseBlocker(blocker, known);
    if parsed.Err? {
      return Err(parsed.error);
    }
    if parsed.value.id in t.blockerIds {
      return Err(Repeated(BlockerId, parsed.value.id));
    }
    var finding := Assess(rules, owner, parsed.value);
    if finding.Err? {
      return Err(finding.error);
    }
    var tally := Record(t, parsed.value.id, finding.value, Read(done, WorkReader(rules, known)).value);
    r := Ok(tally);
  }

  method VisitBlockers(rules: RuleTable, known: set<string>, owner: string, items: seq<Json>, t: Tally,
                       ghost done: seq<Work>, ghost work: seq<Work>)
    returns (r: Result<Tally, DetectError>)
    requires Follows(Ok(t), Read(done, WorkReader(rules, known)))
    requires |work| == |items| && forall i :: 0 <= i < |items| ==> work[i] == Listed(owner, items[i])
    ensures Follows(r, Read(done + work, WorkReader(rules, known)))
  {
    hide *;
    r := Ok(t);
    assert done + work[..0] == done;
    for i := 0 to |items|
      invariant r.Ok? && Follows(r, Read(done + work[..i], WorkReader(rules, known)))
    {
      assert done + work[..i + 1] == done + work[..i] + [Listed(owner, items[i])];
      r := VisitBlocker(rules, known, owner, items[i], r.value, done + work[..i]);
      if r.Err? {
        FollowsStop(r, done + work[..i + 1], done + work, WorkReader(rules, known));
        return;
      }
    }
    assert work[..|work|] == work;
  }

  method VisitBranch(rules: RuleTable, known: set<string>, owner: string, blockers: Json, t: Tally, ghost done: seq<Work>)
    returns (r: Result<Tally, DetectError>)
    requires Follows(Ok(t), Read(done, WorkReader(rules, known)))
    ensures Follows(r, Read(done + WorkOf(owner, blockers), WorkReader(rules, known)))
  {
    if blockers.Arr? {
      hide Follows, Read, WorkReader;
      r := VisitBlockers(rules, known, owner, blockers.items, t, done, WorkOf(owner, blockers));
    } else {
      r := Err(BlockersNotAnArray(owner));
      assert (done + [Unlisted(owner)])[..|done|] == done;
    }
  }

  lemma FollowsStop(r: Result<Tally, DetectError>, prefix: seq<Work>, work: seq<Work>, reader: Reader<Work, Finding, DetectError>)
    requires prefix <= work && r.Err? && Follows(r, Read(prefix, reader))
    ensures Follows(r, Read(work, reader))
  {
    WorkStops(prefix, work, reader);
  }

  lemma AllWorkStep(owners: seq<string>, inputs: map<string, BranchInput>, n: nat)
    requires n < |owners| && forall k :: 0 <= k < |owners| ==> owners[k] in inputs
    ensures AllWork(owners[..n + 1], inputs) == AllWork(owners[..n], inputs) + WorkOf(owners[n], inputs[owners[n]].blockers)
  {
    hide WorkOf;
    assert owners[..n + 1][..n] == owners[..n];
  }

  method VisitOwners(rules: RuleTable, known: set<string>, owners: seq<string>, inputs: map<string, BranchInput>)
    returns (r: Result<Tally, DetectError>)
    requires forall k :: 0 <= k < |owners| ==> owners[k] in inputs
    ensures Follows(r, Read(AllWork(owners, inputs), WorkReader(rules, known)))
  {
    hide *;
    r := Ok(Tally({}, map[], map[], map[], map[]));
    NothingVisited(inputs, WorkReader(rules, known));
    assert owners[..0] == [];
    for n := 0 to |owners|
      invariant r.Ok? && Follows(r, Read(AllWork(owners[..n], inputs), WorkReader(rules, known)))
    {
      AllWorkStep(owners, inputs, n);
      r := VisitBranch(rules, known, owners[n], inputs[owners[n]].blockers, r.value, AllWork(owners[..n], inputs));
      if r.Err? {
        AllWorkPrefix(owners, inputs, n + 1);
        FollowsStop(r, AllWork(owners[..n + 1], inputs), AllWork(owners, inputs), WorkReader(rules, known));
        return;
      }
    }
    assert owners[..|owners|] == owners;
  }

  method VisitAll(rules: RuleTable, inputs: map<string, BranchInput>) returns (r: Result<Tally, DetectError>)
    ensures Follows(r, FindAll(rules, inputs))
  {
    var owners := Ascend(inputs.Keys);
    assert forall k :: 0 <= k < |owners| ==> owners[k] in inputs.Keys;
    r := VisitOwners(rules, inputs.Keys, owners, inputs);
  }

  lemma NothingVisited(inputs: map<string, BranchInput>, reader: Reader<Work, Finding, DetectError>)
    ensures Follows(Ok(Tally({}, map[], map[], map[], map[])), Read(AllWork([], inputs), reader))
  {
  }

  /** Detection: every blocker classified once, every branch told what affects it. */
  method Detect(rules: RuleTable, request: Json) returns (r: Result<Detection, DetectError>)
    ensures r == Detected(rules, request)
  {
    var inputs := ReadBranches(request);
    if inputs.Err? {
      return Err(inputs.error);
    }
    hide ReadBranches, FindAll, Told;
    var tally := VisitAll(rules, inputs.value);
    if tally.Err? {
      return Err(tally.error);
    }
    var t := tally.value;
    var reports := map branch | branch in inputs.value ::
      Told(LookUp(t.branchGapIds, branch), LookUp(t.branchFactIds, branch), inputs.value[branch].status);
    ReportsFollow(t, FindAll(rules, inputs.value).value, inputs.value);
    r := Ok(Detection(t.gaps, t.factDiscovery, reports));
  }

  lemma ReportsFollow(t: Tally, findings: map<string, Finding>, inputs: map<string, BranchInput>)
    requires Tallies(t, findings)
    ensures Reports(findings, inputs)
         == map branch | branch in inputs :: Told(LookUp(t.branchGapIds, branch), LookUp(t.branchFactIds, branch), inputs[branch].status)
  {
    hide Gaps, Discoveries, Affecting, LookUp, Told;
  }

  // ---------------------------------------------------------------- every blocker in exactly one place

  lemma {:induction false} WorkListed(owners: seq<string>, inputs: map<string, BranchInput>, k: nat, w: Work)
    requires k < |owners| && forall j :: 0 <= j < |owners| ==> owners[j] in inputs
    requires w in WorkOf(owners[k], inputs[owners[k]].blockers)
    ensures w in AllWork(owners, inputs)
    decreases |owners|
  {
    if k < |owners| - 1 {
      WorkListed(owners[..|owners| - 1], inputs, k, w);
    }
  }

  lemma {:induction false} WorkOrigin(owners: seq<string>, inputs: map<string, BranchInput>, w: Work)
    requires (forall j :: 0 <= j < |owners| ==> owners[j] in inputs) && w in AllWork(owners, inputs)
    ensures exists k :: 0 <= k < |owners| && w in WorkOf(owners[k], inputs[owners[k]].blockers)
  {
    var last := owners[|owners| - 1];
    if w !in WorkOf(last, inputs[last].blockers) {
      WorkOrigin(owners[..|owners| - 1], inputs, w);
      var k :| 0 <= k < |owners| - 1 && w in WorkOf(owners[..|owners| - 1][k], inputs[owners[..|owners| - 1][k]].blockers);
      assert owners[k] == owners[..|owners| - 1][k];
    }
  }

  /** The id a blocker is known by. */
  function IdOf(blocker: Json): string {
    if At(blocker, "id").Str? then At(blocker, "id").text else ""
  }

  lemma ParsedId(blocker: Json, known: set<string>)
    ensures ParseBlocker(blocker, known).Ok? ==>
              ParseBlocker(blocker, known).value.id == IdOf(blocker) && ParseBlocker(blocker, known).value.affected <= known
  {
    hide StringSet, ParseFacts, ParseOptions, BLOCKER_KEYS;
  }

  lemma AssessAffects(rules: RuleTable, owner: string, p: Parsed)
    ensures Assess(rules, owner, p).Ok? ==> Assess(rules, owner, p).value.affected != {}
    ensures Assess(rules, owner, p).Ok? ==> Assess(rules, owner, p).value.affected <= p.affected + {owner}
    ensures Assess(rules, owner, p).Ok? ==> (Assess(rules, owner, p).value.FactDiscovery? <==> Unresolved(p) != {})
  {
  }

  /** The branch inputs of an accepted request, and its findings. */
  ghost predicate Found(rules: RuleTable, request: Json, inputs: map<string, BranchInput>, findings: map<string, Finding>) {
    ReadBranches(request) == Ok(inputs) && FindAll(rules, inputs) == Ok(findings)
  }

  lemma DetectionFound(rules: RuleTable, request: Json) returns (inputs: map<string, BranchInput>, findings: map<string, Finding>)
    requires Detected(rules, request).Ok?
    ensures Found(rules, request, inputs, findings)
    ensures Detected(rules, request).value == DetectionOf(findings, inputs)
  {
    hide ReadBranches, FindAll;
    inputs := ReadBranches(request).value;
    findings := FindAll(rules, inputs).value;
  }

  lemma WorkRead(rules: RuleTable, known: set<string>, w: Work)
    requires WorkReader(rules, known).key(w).Ok? && WorkReader(rules, known).value(w).Ok?
    ensures w.Listed? && ParseBlocker(w.blocker, known).Ok? && WorkReader(rules, known).key(w) == Ok(IdOf(w.blocker))
    ensures Assess(rules, w.owner, ParseBlocker(w.blocker, known).value) == WorkReader(rules, known).value(w)
  {
    ParsedId(w.blocker, known);
    hide ParseBlocker, Assess, IdOf;
  }

  lemma OwnersKnown(inputs: map<string, BranchInput>)
    ensures forall k :: 0 <= k < |Ascend(inputs.Keys)| ==> Ascend(inputs.Keys)[k] in inputs
  {
    assert forall k :: 0 <= k < |Ascend(inputs.Keys)| ==> Ascend(inputs.Keys)[k] in inputs.Keys;
  }

  /** Where a listed blocker stands among all the work. */
  lemma WorkPlace(inputs: map<string, BranchInput>, owner: string, i: nat) returns (n: nat)
    requires owner in inputs && inputs[owner].blockers.Arr? && i < |inputs[owner].blockers.items|
    ensures forall k :: 0 <= k < |Ascend(inputs.Keys)| ==> Ascend(inputs.Keys)[k] in inputs
    ensures n < |AllWork(Ascend(inputs.Keys), inputs)|
    ensures AllWork(Ascend(inputs.Keys), inputs)[n] == Listed(owner, inputs[owner].blockers.items[i])
  {
    OwnersKnown(inputs);
    var owners, w := Ascend(inputs.Keys), Listed(owner, inputs[owner].blockers.items[i]);
    assert WorkOf(owner, inputs[owner].blockers)[i] == w;
    assert owner in owners;
    hide Ascend, WorkOf;
    var k :| 0 <= k < |owners| && owners[k] == owner;
    WorkListed(owners, inputs, k, w);
    n :| 0 <= n < |AllWork(owners, inputs)| && AllWork(owners, inputs)[n] == w;
  }

  /** Every listed blocker of an accepted request is found under its id: as a gap, or as facts to discover when some are unresolved. */
  lemma BlockerFound(rules: RuleTable, request: Json, inputs: map<string, BranchInput>, findings: map<string, Finding>,
                     owner: string, i: nat)
    requires Found(rules, request, inputs, findings) && owner in inputs
    requires inputs[owner].blockers.Arr? && i < |inputs[owner].blockers.items|
    ensures var blocker := inputs[owner].blockers.items[i];
            && IdOf(blocker) in findings && findings[IdOf(blocker)].affected != {} && findings[IdOf(blocker)].affected <= inputs.Keys
            && ParseBlocker(blocker, inputs.Keys).Ok?
            && (findings[IdOf(blocker)].FactDiscovery? <==> Unresolved(ParseBlocker(blocker, inputs.Keys).value) != {})
  {
    var known, blocker := inputs.Keys, inputs[owner].blockers.items[i];
    var n := WorkPlace(inputs, owner, i);
    var work := AllWork(Ascend(inputs.Keys), inputs);
    hide ReadBranches, AllWork, Read, ParseBlocker, Assess, Unresolved, WorkReader, Ascend;
    ReadItem(work, WorkReader(rules, known), n);
    WorkRead(rules, known, work[n]);
    ParsedId(blocker, known);
    AssessAffects(rules, owner, ParseBlocker(blocker, known).value);
  }

  lemma WorkBack(inputs: map<string, BranchInput>, w: Work)
    requires forall k :: 0 <= k < |Ascend(inputs.Keys)| ==> Ascend(inputs.Keys)[k] in inputs
    requires w.Listed? && w in AllWork(Ascend(inputs.Keys), inputs)
    ensures exists owner, i :: owner in inputs && inputs[owner].blockers.Arr? && 0 <= i < |inputs[owner].blockers.items|
              && inputs[owner].blockers.items[i] == w.blocker
  {
    var owners := Ascend(inputs.Keys);
    WorkOrigin(owners, inputs, w);
    hide Ascend, AllWork;
    var k :| 0 <= k < |owners| && w in WorkOf(owners[k], inputs[owners[k]].blockers);
    var i :| 0 <= i < |WorkOf(owners[k], inputs[owners[k]].blockers)| && WorkOf(owners[k], inputs[owners[k]].blockers)[i] == w;
  }

  /** Every finding comes from a blocker some branch lists. */
  lemma FindingListed(rules: RuleTable, request: Json, inputs: map<string, BranchInput>, findings: map<string, Finding>, id: string)
    requires Found(rules, request, inputs, findings) && id in findings
    ensures exists owner, i :: owner in inputs && inputs[owner].blockers.Arr? && 0 <= i < |inputs[owner].blockers.items|
              && IdOf(inputs[owner].blockers.items[i]) == id
  {
    OwnersKnown(inputs);
    var work, reader := AllWork(Ascend(inputs.Keys), inputs), WorkReader(rules, inputs.Keys);
    hide ReadBranches, Read, ParseBlocker, Assess, Ascend, WorkReader, AllWork, IdOf;
    var n := ReadSource(work, reader, id);
    WorkRead(rules, inputs.Keys, work[n]);
    WorkBack(inputs, work[n]);
  }

  /** Each blocker of an accepted request ends up in exactly one of the two lists, and nothing else does. */
  lemma BlockersPartitioned(rules: RuleTable, request: Json, d: Detection)
    requires Detected(rules, request) == Ok(d)
    ensures ReadBranches(request).Ok?
    ensures d.gaps.Keys !! d.factDiscovery.Keys
    ensures var inputs := ReadBranches(request).value;
            && (forall owner, i :: owner in inputs && inputs[owner].blockers.Arr? && 0 <= i < |inputs[owner].blockers.items| ==>
                  IdOf(inputs[owner].blockers.items[i]) in d.gaps.Keys + d.factDiscovery.Keys)
            && (forall id :: id in d.gaps.Keys + d.factDiscovery.Keys ==>
                  exists owner, i :: owner in inputs && inputs[owner].blockers.Arr? && 0 <= i < |inputs[owner].blockers.items|
                    && IdOf(inputs[owner].blockers.items[i]) == id)
  {
    var inputs, findings := DetectionFound(rules, request);
    hide Found, ReadBranches, IdOf, Detected;
    FindingsSplit(findings);
    forall owner, i | owner in inputs && inputs[owner].blockers.Arr? && 0 <= i < |inputs[owner].blockers.items|
      ensures IdOf(inputs[owner].blockers.items[i]) in findings
    {
      BlockerFound(rules, request, inputs, findings, owner, i);
    }
    forall id | id in findings
      ensures exists owner, i :: owner in inputs && inputs[owner].blockers.Arr? && 0 <= i < |inputs[owner].blockers.items|
                && IdOf(inputs[owner].blockers.items[i]) == id
    {
      FindingListed(rules, request, inputs, findings, id);
    }
  }

  lemma FindingsSplit(findings: map<string, Finding>)
    ensures Gaps(findings).Keys !! Discoveries(findings).Keys
    ensures Gaps(findings).Keys + Discoveries(findings).Keys == findings.Keys
  {
  }

  lemma FindingsReach(rules: RuleTable, request: Json, inputs: map<string, BranchInput>, findings: map<string, Finding>, id: string)
    requires Found(rules, request, inputs, findings) && id in findings
    ensures findings[id].affected != {} && findings[id].affected <= inputs.Keys
  {
    FindingListed(rules, request, inputs, findings, id);
    hide ReadBranches, FindAll, IdOf;
    var owner, i :| owner in inputs && inputs[owner].blockers.Arr? && 0 <= i < |inputs[owner].blockers.items|
                 && IdOf(inputs[owner].blockers.items[i]) == id;
    BlockerFound(rules, request, inputs, findings, owner, i);
  }

  /** A detection tells each branch exactly what affects it. */
  ghost predicate TellsExactly(d: Detection) {
    && (forall b, id :: b in d.branches ==> (id in d.branches[b].gapIds <==> id in d.gaps && b in d.gaps[id].affected))
    && (forall b, id :: b in d.branches ==> (id in d.branches[b].factIds <==> id in d.factDiscovery && b in d.factDiscovery[id].affected))
  }

  /** Nothing found goes untold. */
  ghost predicate AllTold(d: Detection) {
    && (forall id :: id in d.gaps ==> exists b :: b in d.branches && id in d.branches[b].gapIds)
    && (forall id :: id in d.factDiscovery ==> exists b :: b in d.branches && id in d.branches[b].factIds)
  }

  lemma ReportsTell(findings: map<string, Finding>, inputs: map<string, BranchInput>)
    ensures TellsExactly(DetectionOf(findings, inputs))
  {
  }

  lemma ReportsTellAll(findings: map<string, Finding>, inputs: map<string, BranchInput>)
    requires forall id :: id in findings ==> findings[id].affected != {} && findings[id].affected <= inputs.Keys
    ensures AllTold(DetectionOf(findings, inputs))
  {
    var d := DetectionOf(findings, inputs);
    ReportsTell(findings, inputs);
    forall id | id in d.gaps ensures exists b :: b in d.branches && id in d.branches[b].gapIds {
      var b :| b in d.gaps[id].affected;
      assert b in d.branches;
    }
    forall id | id in d.factDiscovery ensures exists b :: b in d.branches && id in d.branches[b].factIds {
      var b :| b in d.factDiscovery[id].affected;
      assert b in d.branches;
    }
  }

  /** Each branch is told exactly the gaps and facts that affect it, and every gap and fact affects some branch of the request. */
  lemma BranchesToldExactly(rules: RuleTable, request: Json, d: Detection)
    requires Detected(rules, request) == Ok(d)
    ensures ReadBranches(request).Ok? && d.branches.Keys == ReadBranches(request).value.Keys
    ensures TellsExactly(d) && AllTold(d)
  {
    var inputs, findings := DetectionFound(rules, request);
    hide ReadBranches, Detected, FindAll, TellsExactly, AllTold;
    forall id | id in findings
      ensures findings[id].affected != {} && findings[id].affected <= inputs.Keys
    {
      FindingsReach(rules, request, inputs, findings, id);
    }
    ReportsTell(findings, inputs);
    ReportsTellAll(findings, inputs);
  }
}
