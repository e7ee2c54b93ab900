/** Node states and the state changes the coordinator makes, as functions from one state map to the next. */
module States {
  import opened Lexical
  import opened Acyclicity
  import opened Text
  import opened Specification

  datatype ArtifactFields = ArtifactFields(
    artifactSchema: string, artifactType: string, path: string, sha256: string,
    consumedSnapshotIdentity: string, byteSize: nat)
  {
    predicate Valid() {
      artifactSchema != "" && artifactType != "" && path != "" && IsDigest(sha256) && IsDigest(consumedSnapshotIdentity)
    }
  }

  const ZEROS := "0000000000000000"

  const ZERO_DIGEST: string := ZEROS + ZEROS + ZEROS + ZEROS

  /** Only validated references exist: every constructor runs the check. */
  type ArtifactRef = r: ArtifactFields | r.Valid() witness ArtifactFields("s", "t", "p", ZERO_DIGEST, ZERO_DIGEST, 0)

  datatype Verdict = Pass | Fail | Unknown | NotApplicable

  datatype Failure = Contract | Unavailable | Internal | Io

  datatype NodeOutcome =
    | Success(verdict: Verdict, artifacts: seq<ArtifactRef>)
    | DomainFail(diagnostic: string, artifacts: seq<ArtifactRef>)
    | Timeout(diagnostic: string)
    | ProcessFailure(failure: Failure, diagnostic: string)

  datatype NodeState =
    | Pending
    | Running
    | Succeeded(verdict: Verdict, artifacts: seq<ArtifactRef>)
    | DomainFailed(diagnostic: string, artifacts: seq<ArtifactRef>)
    | TimedOut(diagnostic: string)
    | ProcessFailed(failure: Failure, diagnostic: string)
    | DependencyBlocked(blockedBy: seq<string>)
    | NotDispatched(reason: string)
    | SkippedOversize(reason: string, actualBytes: u64, byteLimit: u64)
  {
    predicate Terminal() {
      !Pending? && !Running?
    }

    predicate Blocks() {
      DomainFailed? || TimedOut? || ProcessFailed? || DependencyBlocked? || SkippedOversize?
    }

    /** An executor produced this state. */
    predicate Executed() {
      Succeeded? || DomainFailed? || TimedOut? || ProcessFailed?
    }
  }

  type RunStates = map<string, NodeState>

  datatype Dispatch = Dispatch(nodeId: string, capability: string, requestIdentity: string, inputs: seq<ArtifactRef>)

  type Executor = Dispatch -> NodeOutcome

  ghost predicate PlanOk(p: Plan) {
    && ValidHeader(p.spec) && p.nodes != map[] && p.deps.Keys == p.nodes.Keys
    && Listed(p.deps) && Acyclic(p.deps)
  }

  lemma ValidSpecPlan(spec: DagSpec)
    requires ValidSpec(spec)
    ensures PlanOk(PlanOf(spec))
  {
    DependenciesListed(spec);
    assert spec.nodes[0].id in NodeIds(spec.nodes);
    assert spec.nodes[0].id in PlanOf(spec).nodes.Keys;
  }

  predicate Covers(p: Plan, st: RunStates) {
    st.Keys == p.nodes.Keys && st.Keys == p.deps.Keys
  }

  // ---------------------------------------------------------------- dependencies in a state

  function BlockingAmong(st: RunStates, ids: seq<string>): seq<string> {
    if ids == [] then []
    else (if ids[0] in st && st[ids[0]].Blocks() then [ids[0]] else []) + BlockingAmong(st, ids[1..])
  }

  predicate AllSucceeded(st: RunStates, ids: seq<string>) {
    forall d :: d in ids ==> d in st && st[d].Succeeded?
  }

  /** Artifacts of the succeeded dependencies, in dependency order. */
  function Inputs(st: RunStates, ids: seq<string>): seq<ArtifactRef> {
    if ids == [] then []
    else (if ids[0] in st && st[ids[0]].Succeeded? then st[ids[0]].artifacts else []) + Inputs(st, ids[1..])
  }

  function DispatchFor(p: Plan, st: RunStates, id: string): Dispatch
    requires id in p.nodes && id in p.deps
  {
    Dispatch(id, p.nodes[id].capability, p.nodes[id].requestIdentity, Inputs(st, p.deps[id]))
  }

  lemma {:induction false} BlockingAmongMembers(st: RunStates, ids: seq<string>)
    ensures forall d :: d in BlockingAmong(st, ids) <==> d in ids && d in st && st[d].Blocks()
    ensures |BlockingAmong(st, ids)| <= |ids|
  {
    if ids != [] {
      BlockingAmongMembers(st, ids[1..]);
      assert forall d :: d in ids <==> d == ids[0] || d in ids[1..];
    }
  }

  lemma {:induction false} BlockingAmongAscends(st: RunStates, ids: seq<string>)
    requires Ascending(ids)
    ensures Ascending(BlockingAmong(st, ids))
  {
    if ids != [] {
      BlockingAmongAscends(st, ids[1..]);
      BlockingAmongMembers(st, ids[1..]);
      var rest := BlockingAmong(st, ids[1..]);
      assert forall k :: 0 <= k < |rest| ==> rest[k] in rest;
      assert forall d :: d in ids[1..] ==> Below(ids[0], d);
    }
  }

  lemma {:induction false} InputsAgree(a: RunStates, b: RunStates, ids: seq<string>)
    requires forall d :: d in ids ==> (d in a && a[d].Succeeded?) == (d in b && b[d].Succeeded?)
    requires forall d :: d in ids && d in a && a[d].Succeeded? ==> a[d] == b[d]
    ensures Inputs(a, ids) == Inputs(b, ids)
  {
    if ids != [] {
      assert ids[0] in ids && forall d :: d in ids[1..] ==> d in ids;
      InputsAgree(a, b, ids[1..]);
    }
  }

  // ---------------------------------------------------------------- propagation of blocks

  /** A pending node with a blocking dependency. */
  predicate Blockable(p: Plan, st: RunStates, id: string) {
    id in st && st[id].Pending? && id in p.deps && BlockingAmong(st, p.deps[id]) != []
  }

  function PendingIds(st: RunStates): set<string> {
    set id | id in st && st[id].Pending?
  }

  /** One round: every blockable node records the dependencies that block it now. */
  function BlockRound(p: Plan, st: RunStates): RunStates {
    map id | id in st :: if Blockable(p, st, id) then DependencyBlocked(BlockingAmong(st, p.deps[id])) else st[id]
  }

  lemma BlockRoundShrinks(p: Plan, st: RunStates, id: string)
    requires Blockable(p, st, id)
    ensures |PendingIds(BlockRound(p, st))| < |PendingIds(st)|
  {
    var before, after := PendingIds(st), PendingIds(BlockRound(p, st));
    assert after <= before && id in before && id !in after;
    assert after <= before - {id};
    SubsetSize(after, before - {id});
  }

  lemma {:induction false} SubsetSize(a: set<string>, b: set<string>)
    requires a <= b
    ensures |a| <= |b|
    decreases |a|
  {
    if x :| x in a {
      SubsetSize(a - {x}, b - {x});
    }
  }

  predicate Settled(p: Plan, st: RunStates) {
    forall id :: id in st ==> !Blockable(p, st, id)
  }

  /** Rounds until nothing is blockable. */
  function Propagate(p: Plan, st: RunStates): RunStates
    decreases |PendingIds(st)|
  {
    if Settled(p, st) then st
    else
      assert |PendingIds(BlockRound(p, st))| < |PendingIds(st)| by {
        var id :| id in st && Blockable(p, st, id);
        BlockRoundShrinks(p, st, id);
      }
      Propagate(p, BlockRound(p, st))
  }

  // ---------------------------------------------------------------- scheduling and recording

  function RunningIds(st: RunStates): set<string> {
    set id | id in st && st[id].Running?
  }

  function ReadyIds(p: Plan, st: RunStates): set<string> {
    set id | id in st && st[id].Pending? && id in p.deps && AllSucceeded(st, p.deps[id])
  }

  /** Free slots, never below zero. */
  function Available(p: Plan, st: RunStates): nat {
    if |RunningIds(st)| <= p.spec.maxConcurrency then p.spec.maxConcurrency - |RunningIds(st)| else 0
  }

  /** The first ready nodes in id order, as many as there are free slots. */
  function BatchIds(p: Plan, st: RunStates): seq<string> {
    var ready := Ascend(ReadyIds(p, st));
    if |ready| <= Available(p, st) then ready else ready[..Available(p, st)]
  }

  function Start(st: RunStates, ids: seq<string>): RunStates {
    map id | id in st :: if id in ids then Running else st[id]
  }

  const VERDICT_FAIL_DIAGNOSTIC := "executor returned a domain fail verdict"
  const DOMAIN_FAIL_FALLBACK := "domain failure without diagnostic"
  const TIMEOUT_FALLBACK := "node execution timed out"
  const PROCESS_FALLBACK := "process failure without diagnostic"
  const NOT_DISPATCHED_FALLBACK := "node was not dispatched"
  const OVERSIZE_FALLBACK := "node was skipped as oversize"

  function NonemptyDiagnostic(value: string, fallback: string): (r: string)
    ensures !IsBlank(fallback) ==> !IsBlank(r)
    ensures !IsBlank(value) ==> r == value
  {
    if IsBlank(value) then fallback else value
  }

  predicate Bound(snapshot: string, artifacts: seq<ArtifactRef>) {
    forall a :: a in artifacts ==> a.consumedSnapshotIdentity == snapshot
  }

  /** The state a recorded outcome becomes; None when it carries an artifact of another snapshot. */
  function Settle(snapshot: string, outcome: NodeOutcome): Option<NodeState> {
    match outcome
    case Success(verdict, artifacts) =>
      if !Bound(snapshot, artifacts) then None
      else if verdict == Fail then Some(DomainFailed(VERDICT_FAIL_DIAGNOSTIC, artifacts))
      else Some(Succeeded(verdict, artifacts))
    case DomainFail(diagnostic, artifacts) =>
      if !Bound(snapshot, artifacts) then None
      else Some(DomainFailed(NonemptyDiagnostic(diagnostic, DOMAIN_FAIL_FALLBACK), artifacts))
    case Timeout(diagnostic) => Some(TimedOut(NonemptyDiagnostic(diagnostic, TIMEOUT_FALLBACK)))
    case ProcessFailure(failure, diagnostic) =>
      Some(ProcessFailed(failure, NonemptyDiagnostic(diagnostic, PROCESS_FALLBACK)))
  }

  function Unstarted(p: Plan): RunStates {
    map id | id in p.nodes :: Pending
  }

  predicate AllTerminal(st: RunStates) {
    forall id :: id in st ==> st[id].Terminal()
  }
}
