/** The manifest a budgeted run emits, as a document, against the independently written check that admits it. */
module ManifestContract {
  import opened Lexical
  import opened Acyclicity
  import opened Text
  import opened Specification
  import opened States
  import opened Blocking
  import opened Operations
  import opened Evaluation
  import opened Resumption
  import opened Coordination
  import opened Budgeting
  import opened BudgetedDispatch

  /** Field names and fixed words of the documents involved. */
  datatype Word =
    | Schema | RunIdentity | SnapshotIdentity | Outcome | Nodes | BudgetField
    | Limits | Consumed | Exceeded | StoppedAtField | OversizeField | WallClockSeconds | Bytes | ThresholdPercent | SkippedNodesField | NodeId
    | Status | VerdictField | Artifacts | Diagnostic | FailureField | BlockedBy | Reason | ActualBytes | ByteLimit
    | ArtifactSchema | ArtifactType | Path | Sha256 | ConsumedSnapshotIdentity
    | RunManifestV1 | ArtifactRefV1
    | PendingWord | RunningWord | SucceededWord | DomainFailedWord | TimeoutWord | ProcessFailedWord
    | DependencyBlockedWord | NotDispatchedWord | SkippedOversizeWord
    | PassWord | FailWord | UnknownWord | NotApplicableWord
    | ContractWord | UnavailableWord | InternalWord | IoWord
    | CompletedWord | DomainUnknownWord | FailedWord | IncompleteWord | BudgetStoppedWord

  datatype Json =
    | Null
    | Boolean(b: bool)
    | Number(n: int)
    | Term(word: Word)
    | String(s: string)
    | Array(items: seq<Json>)
    | Object(fields: map<Word, Json>)
    | Table(entries: map<string, Json>)

  /** Field access that yields null for anything missing. */
  function Get(v: Json, field: Word): Json {
    if v.Object? && field in v.fields then v.fields[field] else Null
  }

  // ---------------------------------------------------------------- the producer

  function VerdictWord(v: Verdict): Word {
    match v case Pass => PassWord case Fail => FailWord case Unknown => UnknownWord case NotApplicable => NotApplicableWord
  }

  function FailureWord(f: Failure): Word {
    match f case Contract => ContractWord case Unavailable => UnavailableWord case Internal => InternalWord case Io => IoWord
  }

  function OutcomeWord(o: RunOutcome): Word {
    match o
    case Completed => CompletedWord
    case DomainFailure => DomainFailedWord
    case DomainUnknown => DomainUnknownWord
    case TimedOutRun => TimeoutWord
    case ProcessFailedRun => ProcessFailedWord
    case Failed => FailedWord
    case Incomplete => IncompleteWord
    case BudgetStopped => BudgetStoppedWord
  }

  function ArtifactJson(a: ArtifactRef): Json {
    Object(map[Schema := Term(ArtifactRefV1), ArtifactSchema := String(a.artifactSchema), ArtifactType := String(a.artifactType),
               Path := String(a.path), Sha256 := String(a.sha256), ConsumedSnapshotIdentity := String(a.consumedSnapshotIdentity)])
  }

  function ArtifactsJson(artifacts: seq<ArtifactRef>): Json {
    Array(seq(|artifacts|, i requires 0 <= i < |artifacts| => ArtifactJson(artifacts[i])))
  }

  function NamesJson(names: seq<string>): Json {
    Array(seq(|names|, i requires 0 <= i < |names| => String(names[i])))
  }

  function StateJson(s: NodeState): Json {
    match s
    case Pending => Object(map[Status := Term(PendingWord)])
    case Running => Object(map[Status := Term(RunningWord)])
    case Succeeded(verdict, artifacts) =>
      Object(map[Status := Term(SucceededWord), VerdictField := Term(VerdictWord(verdict)), Artifacts := ArtifactsJson(artifacts)])
    case DomainFailed(diagnostic, artifacts) =>
      Object(map[Status := Term(DomainFailedWord), VerdictField := Term(FailWord), Diagnostic := String(diagnostic),
                 Artifacts := ArtifactsJson(artifacts)])
    case TimedOut(diagnostic) => Object(map[Status := Term(TimeoutWord), Diagnostic := String(diagnostic)])
    case ProcessFailed(failure, diagnostic) =>
      Object(map[Status := Term(ProcessFailedWord), FailureField := Term(FailureWord(failure)), Diagnostic := String(diagnostic)])
    case DependencyBlocked(blockedBy) => Object(map[Status := Term(DependencyBlockedWord), BlockedBy := NamesJson(blockedBy)])
    case NotDispatched(reason) => Object(map[Status := Term(NotDispatchedWord), Reason := String(reason)])
    case SkippedOversize(reason, actualBytes, byteLimit) =>
      Object(map[Status := Term(SkippedOversizeWord), Reason := String(reason), ActualBytes := Number(actualBytes), ByteLimit := Number(byteLimit)])
  }

  function SkippedJson(node: SkippedNode): Json {
    Object(map[NodeId := String(node.nodeId), ActualBytes := Number(node.actualBytes), ByteLimit := Number(node.byteLimit)])
  }

  function DimensionJson(wallClock: u64, bytes: u64): Json {
    Object(map[WallClockSeconds := Number(wallClock), Bytes := Number(bytes)])
  }

  function SkippedArray(skipped: seq<SkippedNode>): Json {
    Array(seq(|skipped|, i requires 0 <= i < |skipped| => SkippedJson(skipped[i])))
  }

  function OversizeJson(thresholdPercent: nat, skipped: seq<SkippedNode>): Json {
    Object(map[ThresholdPercent := Number(thresholdPercent), SkippedNodesField := SkippedArray(skipped)])
  }

  function BudgetJson(b: BudgetReport): Json {
    Object(map[
      Limits := DimensionJson(b.wallClockLimit, b.bytesLimit),
      Consumed := DimensionJson(b.wallClockConsumed, b.bytesConsumed),
      Exceeded := Boolean(b.exceeded),
      StoppedAtField := (if b.stoppedAt.Some? then String(b.stoppedAt.value) else Null),
      OversizeField := OversizeJson(b.thresholdPercent, b.skippedNodes)])
  }

  function NodesJson(nodes: RunStates): Json {
    Table(map id | id in nodes :: StateJson(nodes[id]))
  }

  function ManifestJson(run: BudgetedRun, runIdentity: string): Json {
    Object(map[Schema := Term(RunManifestV1), RunIdentity := String(runIdentity), SnapshotIdentity := String(run.manifest.snapshotIdentity),
               Outcome := Term(OutcomeWord(run.manifest.outcome)), Nodes := NodesJson(run.manifest.nodes), BudgetField := BudgetJson(run.budget)])
  }

  // ---------------------------------------------------------------- the check

  predicate ExactKeys(v: Json, keys: set<Word>) {
    v.Object? && v.fields.Keys == keys
  }

  predicate IsU64(v: Json) {
    v.Number? && 0 <= v.n < U64
  }

  predicate NonemptyString(v: Json) {
    v.String? && v.s != ""
  }

  predicate DigestString(v: Json) {
    v.String? && IsDigest(v.s)
  }

  predicate WordAmong(v: Json, words: set<Word>) {
    v.Term? && v.word in words
  }

  predicate ArtifactRefShape(v: Json) {
    && ExactKeys(v, {Schema, ArtifactSchema, ArtifactType, Path, Sha256, ConsumedSnapshotIdentity})
    && Get(v, Schema) == Term(ArtifactRefV1)
    && NonemptyString(Get(v, ArtifactSchema)) && NonemptyString(Get(v, ArtifactType)) && NonemptyString(Get(v, Path))
    && DigestString(Get(v, Sha256))
    && (Get(v, ConsumedSnapshotIdentity).Null? || DigestString(Get(v, ConsumedSnapshotIdentity)))
  }

  predicate ArtifactArray(v: Json) {
    v.Array? && forall i :: 0 <= i < |v.items| ==> ArtifactRefShape(v.items[i])
  }

  predicate NodeValid(node: Json) {
    var status := Get(node, Status);
    if !status.Term? then false
    else match status.word
      case SucceededWord =>
        && ExactKeys(node, {Status, VerdictField, Artifacts})
        && WordAmong(Get(node, VerdictField), {PassWord, UnknownWord, NotApplicableWord}) && ArtifactArray(Get(node, Artifacts))
      case DomainFailedWord =>
        && ExactKeys(node, {Status, VerdictField, Diagnostic, Artifacts})
        && Get(node, VerdictField) == Term(FailWord) && NonemptyString(Get(node, Diagnostic)) && ArtifactArray(Get(node, Artifacts))
      case TimeoutWord =>
        ExactKeys(node, {Status, Diagnostic}) && NonemptyString(Get(node, Diagnostic))
      case ProcessFailedWord =>
        && ExactKeys(node, {Status, FailureField, Diagnostic})
        && WordAmong(Get(node, FailureField), {ContractWord, UnavailableWord, InternalWord, IoWord}) && NonemptyString(Get(node, Diagnostic))
      case DependencyBlockedWord =>
        ExactKeys(node, {Status, BlockedBy}) && Get(node, BlockedBy).Array? && Get(node, BlockedBy).items != []
      case NotDispatchedWord =>
        ExactKeys(node, {Status, Reason}) && NonemptyString(Get(node, Reason))
      case SkippedOversizeWord =>
        && ExactKeys(node, {Status, Reason, ActualBytes, ByteLimit})
        && NonemptyString(Get(node, Reason)) && IsU64(Get(node, ActualBytes)) && IsU64(Get(node, ByteLimit))
      case _ => false
  }

  predicate DimensionValid(v: Json) {
    ExactKeys(v, {WallClockSeconds, Bytes}) && IsU64(Get(v, WallClockSeconds)) && IsU64(Get(v, Bytes))
  }

  predicate SkippedNodeValid(v: Json) {
    && ExactKeys(v, {NodeId, ActualBytes, ByteLimit})
    && NonemptyString(Get(v, NodeId)) && IsU64(Get(v, ActualBytes)) && IsU64(Get(v, ByteLimit))
  }

  predicate OversizeValid(v: Json) {
    && ExactKeys(v, {ThresholdPercent, SkippedNodesField})
    && Get(v, ThresholdPercent).Number? && 1 <= Get(v, ThresholdPercent).n <= 100
    && Get(v, SkippedNodesField).Array?
    && forall i :: 0 <= i < |Get(v, SkippedNodesField).items| ==> SkippedNodeValid(Get(v, SkippedNodesField).items[i])
  }

  predicate BudgetValid(v: Json) {
    && ExactKeys(v, {Limits, Consumed, Exceeded, StoppedAtField, OversizeField})
    && DimensionValid(Get(v, Limits)) && DimensionValid(Get(v, Consumed))
    && Get(v, Exceeded).Boolean? && (Get(v, StoppedAtField).Null? || NonemptyString(Get(v, StoppedAtField)))
    && OversizeValid(Get(v, OversizeField))
  }

  const OUTCOME_WORDS: set<Word> :=
    {CompletedWord, DomainFailedWord, DomainUnknownWord, TimeoutWord, ProcessFailedWord, FailedWord, BudgetStoppedWord}

  predicate HeaderFieldsValid(v: Json) {
    && ExactKeys(v, {Schema, RunIdentity, SnapshotIdentity, Outcome, Nodes}
                    + (if v.Object? && BudgetField in v.fields then {BudgetField} else {}))
    && (BudgetField in v.fields ==> BudgetValid(v.fields[BudgetField]))
    && Get(v, Schema) == Term(RunManifestV1)
    && Get(v, RunIdentity).String? && IsRunIdentity(Get(v, RunIdentity).s)
    && DigestString(Get(v, SnapshotIdentity)) && WordAmong(Get(v, Outcome), OUTCOME_WORDS)
  }

  predicate ManifestValid(v: Json) {
    && HeaderFieldsValid(v)
    && Get(v, Nodes).Table? && Get(v, Nodes).entries != map[]
    && forall id :: id in Get(v, Nodes).entries ==> NodeValid(Get(v, Nodes).entries[id])
  }

  /** The check as it runs: fields first, then node after node, stopping at the first that fails. */
  method ValidateRunManifest(v: Json) returns (ok: bool)
    ensures ok <==> ManifestValid(v)
  {
    if !HeaderFieldsValid(v) {
      return false;
    }
    var nodes := Get(v, Nodes);
    if !nodes.Table? || nodes.entries == map[] {
      return false;
    }
    var todo := nodes.entries.Keys;
    while todo != {}
      invariant todo <= nodes.entries.Keys
      invariant forall id :: id in nodes.entries && id !in todo ==> NodeValid(nodes.entries[id])
    {
      var id := First(todo);
      if !NodeValid(nodes.entries[id]) {
        return false;
      }
      todo := todo - {id};
    }
    ok := true;
  }

  // ---------------------------------------------------------------- producer against check

  lemma ArtifactsAdmitted(artifacts: seq<ArtifactRef>)
    ensures ArtifactArray(ArtifactsJson(artifacts))
  {
    forall i | 0 <= i < |artifacts| ensures ArtifactRefShape(ArtifactJson(artifacts[i])) {
      ArtifactAdmitted(artifacts[i]);
    }
  }

  lemma ArtifactAdmitted(a: ArtifactRef)
    ensures ArtifactRefShape(ArtifactJson(a))
  {
  }

  lemma SucceededAdmitted(verdict: Verdict, artifacts: seq<ArtifactRef>)
    requires verdict != Fail
    ensures NodeValid(StateJson(Succeeded(verdict, artifacts)))
  {
    ArtifactsAdmitted(artifacts);
  }

  lemma DomainFailedAdmitted(diagnostic: string, artifacts: seq<ArtifactRef>)
    requires diagnostic != ""
    ensures NodeValid(StateJson(DomainFailed(diagnostic, artifacts)))
  {
    ArtifactsAdmitted(artifacts);
  }

  lemma FailureAdmitted(failure: Failure, diagnostic: string)
    requires diagnostic != ""
    ensures NodeValid(StateJson(TimedOut(diagnostic))) && NodeValid(StateJson(ProcessFailed(failure, diagnostic)))
  {
  }

  lemma RefusalAdmitted(names: seq<string>, reason: string, actualBytes: u64, byteLimit: u64)
    requires names != [] && reason != ""
    ensures NodeValid(StateJson(DependencyBlocked(names))) && NodeValid(StateJson(NotDispatched(reason)))
    ensures NodeValid(StateJson(SkippedOversize(reason, actualBytes, byteLimit)))
  {
  }

  /** A sound state is admitted exactly when it is terminal. */
  lemma StateAdmitted(snapshot: string, s: NodeState)
    requires Sound(snapshot, s) && (s.DependencyBlocked? ==> s.blockedBy != [])
    ensures NodeValid(StateJson(s)) <==> s.Terminal()
  {
    match s
    case Pending => assert Get(StateJson(s), Status) == Term(PendingWord);
    case Running => assert Get(StateJson(s), Status) == Term(RunningWord);
    case Succeeded(verdict, artifacts) => SucceededAdmitted(verdict, artifacts);
    case DomainFailed(diagnostic, artifacts) => DomainFailedAdmitted(diagnostic, artifacts);
    case TimedOut(diagnostic) => FailureAdmitted(Io, diagnostic);
    case ProcessFailed(failure, diagnostic) => FailureAdmitted(failure, diagnostic);
    case DependencyBlocked(names) => RefusalAdmitted(names, "r", 0, 0);
    case NotDispatched(reason) => RefusalAdmitted(["d"], reason, 0, 0);
    case SkippedOversize(reason, actualBytes, byteLimit) => RefusalAdmitted(["d"], reason, actualBytes, byteLimit);
  }

  /** What the document says of each state, word for word; a state without its own case says so. */
  lemma StateWords(s: NodeState)
    ensures var v := StateJson(s);
            && (Get(v, Status) == Term(SucceededWord) <==> s.Succeeded?) && (Get(v, Status) == Term(DomainFailedWord) <==> s.DomainFailed?)
            && (Get(v, Status) == Term(TimeoutWord) <==> s.TimedOut?) && (Get(v, Status) == Term(ProcessFailedWord) <==> s.ProcessFailed?)
            && (Get(v, Status) == Term(DependencyBlockedWord) <==> s.DependencyBlocked?)
            && (Get(v, Status) == Term(NotDispatchedWord) <==> s.NotDispatched?)
            && (Get(v, Status) == Term(SkippedOversizeWord) <==> s.SkippedOversize?)
            && (Get(v, Status) == Term(PendingWord) <==> s.Pending?) && (Get(v, Status) == Term(RunningWord) <==> s.Running?)
    ensures s.Succeeded? ==> (Get(StateJson(s), VerdictField) == Term(PassWord) <==> s.verdict.Pass?)
    ensures s.Succeeded? ==> (Get(StateJson(s), VerdictField) == Term(UnknownWord) <==> s.verdict.Unknown?)
    ensures s.Succeeded? ==> (Get(StateJson(s), VerdictField) == Term(NotApplicableWord) <==> s.verdict.NotApplicable?)
    ensures s.SkippedOversize? ==> Get(StateJson(s), ActualBytes) == Number(s.actualBytes) && Get(StateJson(s), ByteLimit) == Number(s.byteLimit)
    ensures s.ProcessFailed? ==> (Get(StateJson(s), FailureField) == Term(UnavailableWord) <==> s.failure.Unavailable?)
    ensures s.ProcessFailed? ==> (Get(StateJson(s), FailureField) == Term(InternalWord) <==> s.failure.Internal?)
    ensures s.ProcessFailed? ==> (Get(StateJson(s), FailureField) == Term(IoWord) <==> s.failure.Io?)
  {
    hide ArtifactsJson, NamesJson;
  }

  lemma SkippedAdmitted(st: RunStates, i: nat)
    requires i < |SkippedNodes(st)| && forall id :: id in st ==> id != ""
    ensures SkippedNodeValid(SkippedJson(SkippedNodes(st)[i]))
  {
    var ids := Ascend(SkippedIds(st));
    assert ids[i] in ids;
  }

  lemma OversizeAdmitted(st: RunStates, thresholdPercent: nat)
    requires 1 <= thresholdPercent <= 100 && forall id :: id in st ==> id != ""
    ensures OversizeValid(OversizeJson(thresholdPercent, SkippedNodes(st)))
  {
    var skipped := SkippedNodes(st);
    var v := OversizeJson(thresholdPercent, skipped);
    assert Get(v, SkippedNodesField) == SkippedArray(skipped);
    forall i | 0 <= i < |skipped| ensures SkippedNodeValid(SkippedArray(skipped).items[i]) {
      SkippedAdmitted(st, i);
    }
  }

  lemma BudgetAdmitted(st: RunStates, b: BudgetReport)
    requires 1 <= b.thresholdPercent <= 100 && b.skippedNodes == SkippedNodes(st)
    requires b.stoppedAt.Some? ==> b.stoppedAt.value != ""
    requires forall id :: id in st ==> id != ""
    ensures BudgetValid(BudgetJson(b))
  {
    OversizeAdmitted(st, b.thresholdPercent);
  }

  lemma NodeIdsNonempty(spec: DagSpec, id: string)
    requires ValidSpec(spec) && id in PlanOf(spec).nodes
    ensures id != ""
  {
    var i :| 0 <= i < |spec.nodes| && spec.nodes[i].id == id;
    assert ValidNode(spec.nodes[i]);
  }

  lemma OutcomeAdmitted(st: RunStates, stopped: bool)
    requires stopped || AllTerminal(st)
    ensures OutcomeWord(BudgetedOutcome(st, stopped)) in OUTCOME_WORDS
  {
  }

  /** A run reported by the budgeted loop. */
  ghost predicate Reported(spec: DagSpec, st: RunStates, run: BudgetedRun)
    requires ValidSpec(spec)
  {
    var p := PlanOf(spec);
    && Stable(p, st) && PendingIds(st) == {}
    && run.manifest == ManifestOf(p, st).(outcome := BudgetedOutcome(st, run.budget.stoppedAt.Some?))
    && (run.budget.stoppedAt.None? ==> AllTerminal(st))
    && (run.budget.stoppedAt.Some? ==> run.budget.stoppedAt.value in st)
    && 1 <= run.budget.thresholdPercent <= 100 && run.budget.skippedNodes == SkippedNodes(st)
  }

  lemma NodesAdmitted(p: Plan, st: RunStates)
    requires Inv(p, st) && PendingIds(st) == {}
    ensures (forall id :: id in st ==> NodeValid(StateJson(st[id]))) <==> RunningIds(st) == {}
  {
    forall id | id in st ensures NodeValid(StateJson(st[id])) <==> id !in RunningIds(st) {
      assert NodeOk(p, st, id) && id !in PendingIds(st);
      StateAdmitted(p.spec.snapshotIdentity, st[id]);
    }
    if RunningIds(st) != {} {
      var id :| id in RunningIds(st);
      assert !NodeValid(StateJson(st[id]));
    }
  }

  lemma HeaderAdmitted(run: BudgetedRun, runIdentity: string)
    requires IsRunIdentity(runIdentity) && IsDigest(run.manifest.snapshotIdentity)
    requires BudgetValid(BudgetJson(run.budget)) && OutcomeWord(run.manifest.outcome) in OUTCOME_WORDS
    ensures HeaderFieldsValid(ManifestJson(run, runIdentity))
    ensures Get(ManifestJson(run, runIdentity), Nodes) == NodesJson(run.manifest.nodes)
  {
    var v := ManifestJson(run, runIdentity);
    assert v.fields.Keys == {Schema, RunIdentity, SnapshotIdentity, Outcome, Nodes, BudgetField};
    assert Get(v, RunIdentity) == String(runIdentity) && Get(v, SnapshotIdentity) == String(run.manifest.snapshotIdentity);
    assert v.fields[BudgetField] == BudgetJson(run.budget) && Get(v, Outcome) == Term(OutcomeWord(run.manifest.outcome));
  }

  lemma ReportFields(spec: DagSpec, st: RunStates, run: BudgetedRun)
    requires ValidSpec(spec) && Reported(spec, st, run)
    ensures IsDigest(run.manifest.snapshotIdentity) && BudgetValid(BudgetJson(run.budget))
    ensures OutcomeWord(run.manifest.outcome) in OUTCOME_WORDS && run.manifest.nodes == st && st != map[]
  {
    forall id | id in st ensures id != "" {
      NodeIdsNonempty(spec, id);
    }
    BudgetAdmitted(st, run.budget);
    OutcomeAdmitted(st, run.budget.stoppedAt.Some?);
    ValidSpecPlan(spec);
  }

  /** What the loop reports passes the check exactly when no node was left running. */
  lemma ReportAdmitted(spec: DagSpec, st: RunStates, run: BudgetedRun, runIdentity: string)
    requires ValidSpec(spec) && Reported(spec, st, run) && IsRunIdentity(runIdentity)
    ensures ManifestValid(ManifestJson(run, runIdentity)) <==> RunningIds(st) == {}
  {
    ReportFields(spec, st, run);
    ReportedStates(spec, st, run);
    hide *;
    HeaderAdmitted(run, runIdentity);
    NodesAdmitted(PlanOf(spec), st);
    NodesDecide(run, runIdentity);
  }

  lemma ReportedStates(spec: DagSpec, st: RunStates, run: BudgetedRun)
    requires ValidSpec(spec) && Reported(spec, st, run)
    ensures Inv(PlanOf(spec), st) && PendingIds(st) == {}
  {
    hide ManifestOf, BudgetedOutcome, SkippedNodes, Inv;
  }

  /** Once the header passes, the nodes decide. */
  lemma NodesDecide(run: BudgetedRun, runIdentity: string)
    requires HeaderFieldsValid(ManifestJson(run, runIdentity)) && run.manifest.nodes != map[]
    requires Get(ManifestJson(run, runIdentity), Nodes) == NodesJson(run.manifest.nodes)
    ensures ManifestValid(ManifestJson(run, runIdentity))
       <==> forall id :: id in run.manifest.nodes ==> NodeValid(StateJson(run.manifest.nodes[id]))
  {
    TableAdmitted(run.manifest.nodes);
    TableFilled(run.manifest.nodes);
    hide NodeValid, StateJson, HeaderFieldsValid, ManifestJson, NodesJson;
  }

  lemma TableFilled(st: RunStates)
    ensures NodesJson(st).Table? && (st != map[] ==> NodesJson(st).entries != map[])
  {
    hide StateJson;
    if id :| id in st {
      assert id in NodesJson(st).entries;
    }
  }

  lemma TableAdmitted(st: RunStates)
    ensures NodesJson(st).entries.Keys == st.Keys
    ensures (forall id :: id in NodesJson(st).entries ==> NodeValid(NodesJson(st).entries[id]))
       <==> (forall id :: id in st ==> NodeValid(StateJson(st[id])))
  {
    var entries := NodesJson(st).entries;
    assert forall id :: id in st ==> entries[id] == StateJson(st[id]);
  }

  /** The loop's own contract delivers everything the check needs to know. */
  lemma LoopReports(spec: DagSpec, st: RunStates, budget: Budget, policy: OversizePolicy, stoppedAt: Option<string>)
    requires ValidSpec(spec) && policy.Valid() && Stable(PlanOf(spec), st)
    requires stoppedAt.None? ==> AllTerminal(st)
    requires stoppedAt.Some? ==> PendingIds(st) == {} && stoppedAt.value in RefusedIds(st)
    ensures Reported(spec, st, ReportOf(PlanOf(spec), st, budget, policy, stoppedAt))
  {
  }

  /** After a stop the manifest passes exactly when the stopped batch had accepted nothing. */
  lemma StoppedAdmitted(spec: DagSpec, last: RunStates, st: RunStates, run: BudgetedRun, runIdentity: string,
                        estimate: Estimator, policy: OversizePolicy, limit: u64, n: nat)
    requires ValidSpec(spec) && Reported(spec, st, run) && IsRunIdentity(runIdentity) && run.budget.stoppedAt.Some?
    requires RunningIds(last) == {} && StoppedIn(PlanOf(spec), last, st, estimate, policy, limit, n, run.budget.stoppedAt.value)
    ensures ManifestValid(ManifestJson(run, runIdentity)) <==> AcceptedBefore(PlanOf(spec), last, estimate, policy, limit, n) == {}
  {
    hide Reported, ManifestValid, ManifestJson, AcceptedBefore, PlanOf, ValidSpec, BatchIds, IsRunIdentity;
    ReportAdmitted(spec, st, run, runIdentity);
  }

  // ---------------------------------------------------------------- a run that stops in the middle of a batch

  const PAIR_SPEC := DagSpec(ZERO_DIGEST, 2, [NodeSpec("a", "f", "r"), NodeSpec("b", "f", "r")], [])

  lemma PairNodes(spec: DagSpec)
    requires spec == PAIR_SPEC
    ensures ValidHeader(spec) && NodesValid(spec.nodes) && EdgesValid({"a", "b"}, spec.edges) && NodeIds(spec.nodes) == {"a", "b"}
  {
    assert "a"[0] == 'a' && "b"[0] == 'b' && "f"[0] == 'f' && "r"[0] == 'r';
    assert spec.nodes[0].id == "a" && spec.nodes[1].id == "b";
  }

  lemma PairPlan()
    ensures ValidSpec(PAIR_SPEC) && Pair(PlanOf(PAIR_SPEC))
  {
    PairNodes(PAIR_SPEC);
    PairShape(PAIR_SPEC);
    PairAcyclic(PlanOf(PAIR_SPEC));
    hide NodesValid, ValidHeader, EdgesValid, Pair;
  }

  /** Two independent nodes and room for both. */
  ghost predicate Pair(p: Plan) {
    && p.nodes.Keys == {"a", "b"} && p.deps.Keys == {"a", "b"} && p.deps["a"] == [] && p.deps["b"] == []
    && p.spec.maxConcurrency == 2
  }

  lemma PairShape(spec: DagSpec)
    requires NodeIds(spec.nodes) == {"a", "b"} && spec.edges == [] && spec.maxConcurrency == 2
    ensures Pair(PlanOf(spec))
  {
    assert Sources(spec.edges, "a") == {} && Sources(spec.edges, "b") == {};
    ShortcutLists();
  }

  lemma PairAcyclic(p: Plan)
    requires Pair(p)
    ensures Acyclic(p.deps)
  {
    assert Ranks(map["a" := 0, "b" := 0], p.deps);
  }

  /** Both nodes are due in the first batch. */
  lemma PairDue(p: Plan)
    requires Pair(p)
    ensures BatchIds(p, Unstarted(p)) == ["a", "b"] && RunningIds(Unstarted(p)) == {}
  {
    var st := Unstarted(p);
    assert ReadyIds(p, st) == {"a", "b"} && RunningIds(st) == {};
    ShortcutLists();
    hide ReadyIds, Ascend;
  }

  function EvenCost(d: Dispatch): DispatchCost {
    DispatchCost(1, 6)
  }

  /** The first of two dispatches fits the budget and the second does not. */
  lemma PairTurned(budget: Budget, policy: OversizePolicy, batch: seq<Dispatch>)
    requires |batch| == 2 && policy == OversizePolicy(100)
    requires budget.wallClockLimit == 10 && budget.bytesLimit == 10 && budget.estimable
    ensures Turned(budget, Account(0, 0), EvenCost, policy, batch, 1, true)
  {
    assert batch[..1] == [batch[0]] && batch[..0] == [];
    assert Admitted(EvenCost, policy, 10, []) == [] && Admitted(EvenCost, policy, 10, [batch[0]]) == [batch[0]];
    assert SpendAll(Account(0, 0), EvenCost, [batch[0]]) == Account(1, 6);
    assert Passes(budget, Account(0, 0), EvenCost, policy, batch, 0);
    assert !Passes(budget, Account(0, 0), EvenCost, policy, batch, 1);
  }

  lemma PairAccepts(p: Plan, st: RunStates, policy: OversizePolicy)
    requires Covers(p, st) && BatchIds(p, st) == ["a", "b"] && policy == OversizePolicy(100)
    ensures "a" in AcceptedBefore(p, st, EvenCost, policy, 10, 1)
  {
    BatchMembers(p, st);
    hide BatchIds;
    assert "a" in ["a", "b"] && ["a", "b"][0] == "a";
  }

  /** A new coordinator whose first batch does not fit stops in it, and what it reports is what it leaves. */
  method RunStopping(spec: DagSpec, c: Coordinator, exec: Executor, budget: Budget, estimate: Estimator, policy: OversizePolicy,
                     elapsed: string -> u64, ghost m: nat)
    returns (run: BudgetedRun)
    requires ValidSpec(spec) && c.Valid() && c.plan == PlanOf(spec) && c.states == Unstarted(c.plan) && policy.Valid()
    requires Loyal(spec.snapshotIdentity, exec)
    requires TurnAt(c.plan, c.states, budget, budget.Spent(), estimate, policy, m, true)
    modifies c`states, budget
    ensures c.plan == PlanOf(spec) && run.budget.stoppedAt.Some? && Reported(spec, c.states, run)
    ensures StoppedIn(c.plan, Unstarted(c.plan), c.states, estimate, policy, budget.bytesLimit, m, run.budget.stoppedAt.value)
  {
    ghost var p := c.plan;
    UnfinishedStart(p);
    ghost var order, last, n;
    var r;
    r, order, last, n := RunToCompletion(c, exec, budget, estimate, policy, elapsed);
    run := r.value;
    assert Stable(p, c.states);
    hide ReportOf, Reported, Stable, Ledger, Paid, Kept, AllSatisfied;
    LoopReports(spec, c.states, budget, policy, run.budget.stoppedAt);
  }

  lemma UnfinishedStart(p: Plan)
    requires PlanOk(p)
    ensures !AllTerminal(Unstarted(p)) && !LeftOver(Unstarted(p)) && RunningIds(Unstarted(p)) == {}
  {
    var id :| id in p.nodes;
    assert Unstarted(p)[id].Pending?;
  }

  /** The loop itself produces a manifest the check refuses: it stops at `b`, leaves `a` running, and reports both. */
  method StopMidBatchRefused(exec: Executor, elapsed: string -> u64, runIdentity: string) returns (run: BudgetedRun)
    requires Loyal(PAIR_SPEC.snapshotIdentity, exec) && IsRunIdentity(runIdentity)
    ensures run.budget.stoppedAt == Some("b") && IsRunning(run.manifest.nodes, "a")
    ensures !ManifestValid(ManifestJson(run, runIdentity))
  {
    PairPlan();
    ghost var p := PlanOf(PAIR_SPEC);
    PairDue(p);
    var created := Coordinator.New(PAIR_SPEC);
    var c := created.value;
    var budget := new Budget(10, 10, true);
    var policy := OversizePolicy(100);
    PairTurned(budget, policy, Due(p, Unstarted(p)));
    PairAccepts(p, Unstarted(p), policy);
    run := RunStopping(PAIR_SPEC, c, exec, budget, EvenCost, policy, elapsed, 1);
    hide *;
    StoppedAdmitted(PAIR_SPEC, Unstarted(p), c.states, run, runIdentity, EvenCost, policy, 10, 1);
  }
}
