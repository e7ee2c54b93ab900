/** The public operations of a coordinator, and what every sequence of them keeps. */
module Operations {
  import opened Lexical
  import opened Acyclicity
  import opened Text
  import opened Specification
  import opened States
  import opened Blocking

  datatype Op =
    | NextBatch
    | Record(id: string, outcome: NodeOutcome)
    | RecordNotDispatched(id: string, reason: string)
    | RecordSkippedOversize(id: string, reason: string, actualBytes: u64, byteLimit: u64)
    | MarkPendingNotDispatched(reason: string)

  predicate IsRunning(st: RunStates, id: string) {
    id in st && st[id].Running?
  }

  function MarkPending(st: RunStates, state: NodeState): RunStates {
    map id | id in st :: if st[id].Pending? then state else st[id]
  }

  function Refused(reason: string): NodeState {
    NotDispatched(NonemptyDiagnostic(reason, NOT_DISPATCHED_FALLBACK))
  }

  function Oversized(reason: string, actualBytes: u64, byteLimit: u64): NodeState {
    SkippedOversize(NonemptyDiagnostic(reason, OVERSIZE_FALLBACK), actualBytes, byteLimit)
  }

  /** The state after an operation; an operation that fails changes nothing. */
  function Apply(p: Plan, st: RunStates, op: Op): RunStates {
    match op
    case NextBatch =>
      var settled := Propagate(p, st);
      Start(settled, BatchIds(p, settled))
    case Record(id, outcome) =>
      var settled := Settle(p.spec.snapshotIdentity, outcome);
      if !IsRunning(st, id) || settled.None? then st else Propagate(p, st[id := settled.value])
    case RecordNotDispatched(id, reason) =>
      if !IsRunning(st, id) then st else st[id := Refused(reason)]
    case RecordSkippedOversize(id, reason, actualBytes, byteLimit) =>
      if !IsRunning(st, id) then st else Propagate(p, st[id := Oversized(reason, actualBytes, byteLimit)])
    case MarkPendingNotDispatched(reason) =>
      MarkPending(st, Refused(reason))
  }

  function ApplyAll(p: Plan, st: RunStates, ops: seq<Op>): RunStates
    decreases |ops|
  {
    if ops == [] then st else ApplyAll(p, Apply(p, st, ops[0]), ops[1..])
  }

  /** What a single stored state may contain, whatever the rest of the run looks like. */
  ghost predicate Sound(snapshot: string, s: NodeState) {
    match s
    case Succeeded(verdict, artifacts) => verdict != Fail && Bound(snapshot, artifacts)
    case DomainFailed(diagnostic, artifacts) => !IsBlank(diagnostic) && Bound(snapshot, artifacts)
    case TimedOut(diagnostic) => !IsBlank(diagnostic)
    case ProcessFailed(_, diagnostic) => !IsBlank(diagnostic)
    case NotDispatched(reason) => !IsBlank(reason)
    case SkippedOversize(reason, _, _) => !IsBlank(reason)
    case _ => true
  }

  /** A node was started, so everything it depends on had succeeded. */
  ghost predicate Started(s: NodeState) {
    s.Running? || s.Executed() || s.SkippedOversize?
  }

  ghost predicate NodeOk(p: Plan, st: RunStates, id: string) {
    && BlockListOk(p, st, id) && Sound(p.spec.snapshotIdentity, st[id])
    && (Started(st[id]) ==> AllSucceeded(st, p.deps[id]))
  }

  ghost predicate Inv(p: Plan, st: RunStates) {
    && Covers(p, st)
    && |RunningIds(st)| <= p.spec.maxConcurrency
    && forall id {:trigger NodeOk(p, st, id)} :: id in st ==> NodeOk(p, st, id)
  }

  /** Between operations no node is left that propagation would block. */
  ghost predicate Stable(p: Plan, st: RunStates) {
    Inv(p, st) && Settled(p, st)
  }

  /** No terminal state is ever replaced. */
  ghost predicate Grows(before: RunStates, after: RunStates) {
    before.Keys == after.Keys && forall id :: id in before && before[id].Terminal() ==> after[id] == before[id]
  }

  lemma NodeKept(p: Plan, before: RunStates, after: RunStates, id: string)
    requires NodeOk(p, before, id) && Grows(before, after) && after[id] == before[id]
    ensures NodeOk(p, after, id)
  {
    BlockListKept(p, before, after, id);
  }

  lemma SubsetBound(a: set<string>, b: set<string>)
    requires a <= b
    ensures |a| <= |b|
  {
    SubsetSize(a, b);
  }

  lemma UnstartedInv(p: Plan)
    requires PlanOk(p)
    ensures Inv(p, Unstarted(p))
  {
    assert RunningIds(Unstarted(p)) == {};
  }

  lemma PropagateGrows(p: Plan, st: RunStates)
    ensures Grows(st, Propagate(p, st)) && RunningIds(Propagate(p, st)) == RunningIds(st)
  {
    var next := Propagate(p, st);
    PropagateFrame(p, st);
    assert forall id :: id in st ==> Step(p, st, next, id);
  }

  lemma PropagateInv(p: Plan, st: RunStates)
    requires PlanOk(p) && Inv(p, st)
    ensures Inv(p, Propagate(p, st)) && Grows(st, Propagate(p, st))
    ensures RunningIds(Propagate(p, st)) == RunningIds(st)
  {
    var next := Propagate(p, st);
    PropagateGrows(p, st);
    forall id | id in st ensures BlockListOk(p, st, id) {
      assert NodeOk(p, st, id);
    }
    PropagateBlockLists(p, st);
    PropagateFrame(p, st);
    forall id | id in next ensures NodeOk(p, next, id) {
      assert Step(p, st, next, id) && NodeOk(p, st, id) && BlockListOk(p, next, id);
    }
  }

  /** Replacing one running node's state by a sound terminal one keeps the invariant. */
  lemma FinishInv(p: Plan, st: RunStates, id: string, s: NodeState)
    requires Inv(p, st) && IsRunning(st, id) && s.Terminal() && !s.DependencyBlocked?
    requires Sound(p.spec.snapshotIdentity, s)
    ensures Inv(p, st[id := s]) && Grows(st, st[id := s])
  {
    var next := st[id := s];
    forall x | x in next ensures NodeOk(p, next, x) {
      assert NodeOk(p, st, x);
      if x != id {
        NodeKept(p, st, next, x);
      }
    }
    SubsetBound(RunningIds(next), RunningIds(st));
  }

  lemma SettleSound(snapshot: string, outcome: NodeOutcome)
    requires Settle(snapshot, outcome).Some?
    ensures Settle(snapshot, outcome).value.Executed() && Sound(snapshot, Settle(snapshot, outcome).value)
  {
    assert VERDICT_FAIL_DIAGNOSTIC[0] == 'e' && DOMAIN_FAIL_FALLBACK[0] == 'd';
    assert TIMEOUT_FALLBACK[0] == 'n' && PROCESS_FALLBACK[0] == 'p';
  }

  lemma RefusalsSound(snapshot: string, reason: string, actualBytes: u64, byteLimit: u64)
    ensures Sound(snapshot, Refused(reason)) && Sound(snapshot, Oversized(reason, actualBytes, byteLimit))
  {
    assert NOT_DISPATCHED_FALLBACK[0] == 'n' && OVERSIZE_FALLBACK[0] == 'n';
  }

  lemma MarkPendingInv(p: Plan, st: RunStates, s: NodeState)
    requires Inv(p, st) && s.NotDispatched? && Sound(p.spec.snapshotIdentity, s)
    ensures Inv(p, MarkPending(st, s)) && Grows(st, MarkPending(st, s))
  {
    var next := MarkPending(st, s);
    forall x | x in next ensures NodeOk(p, next, x) {
      assert NodeOk(p, st, x);
      if next[x] == st[x] {
        NodeKept(p, st, next, x);
      }
    }
    assert RunningIds(next) == RunningIds(st);
  }

  lemma BatchMembers(p: Plan, st: RunStates)
    ensures forall id :: id in BatchIds(p, st) ==> id in ReadyIds(p, st)
    ensures Ascending(BatchIds(p, st)) && |BatchIds(p, st)| <= Available(p, st)
  {
    var ready := Ascend(ReadyIds(p, st));
    assert forall i :: 0 <= i < |BatchIds(p, st)| ==> BatchIds(p, st)[i] == ready[i] && ready[i] in ready;
  }

  lemma {:induction false} ElementsSize(s: seq<string>)
    ensures |Elements(s)| <= |s|
  {
    if s != [] {
      ElementsSize(s[1..]);
      assert Elements(s) == {s[0]} + Elements(s[1..]);
    }
  }

  lemma StartCount(st: RunStates, ids: seq<string>)
    ensures |RunningIds(Start(st, ids))| <= |RunningIds(st)| + |ids|
  {
    ElementsSize(ids);
    SubsetBound(RunningIds(Start(st, ids)), RunningIds(st) + Elements(ids));
  }

  /** Starting pending nodes whose dependencies all succeeded, within the free slots. */
  lemma StartInv(p: Plan, st: RunStates, ids: seq<string>)
    requires Inv(p, st) && |ids| <= Available(p, st)
    requires forall id :: id in ids ==> id in ReadyIds(p, st)
    ensures Inv(p, Start(st, ids)) && Grows(st, Start(st, ids))
  {
    var next := Start(st, ids);
    assert Grows(st, next);
    forall x | x in next ensures NodeOk(p, next, x) {
      assert NodeOk(p, st, x);
      if x !in ids {
        NodeKept(p, st, next, x);
      }
    }
    StartCount(st, ids);
  }

  /** Every operation keeps the invariant and every terminal state. */
  lemma ApplyInv(p: Plan, st: RunStates, op: Op)
    requires PlanOk(p) && Inv(p, st)
    ensures Inv(p, Apply(p, st, op)) && Grows(st, Apply(p, st, op))
  {
    match op
    case NextBatch =>
      PropagateInv(p, st);
      BatchMembers(p, Propagate(p, st));
      StartInv(p, Propagate(p, st), BatchIds(p, Propagate(p, st)));
    case Record(id, outcome) =>
      var settled := Settle(p.spec.snapshotIdentity, outcome);
      if IsRunning(st, id) && settled.Some? {
        SettleSound(p.spec.snapshotIdentity, outcome);
        FinishInv(p, st, id, settled.value);
        PropagateInv(p, st[id := settled.value]);
      }
    case RecordNotDispatched(id, reason) =>
      RefusalsSound(p.spec.snapshotIdentity, reason, 0, 0);
      if IsRunning(st, id) {
        FinishInv(p, st, id, Refused(reason));
      }
    case RecordSkippedOversize(id, reason, actualBytes, byteLimit) =>
      RefusalsSound(p.spec.snapshotIdentity, reason, actualBytes, byteLimit);
      if IsRunning(st, id) {
        FinishInv(p, st, id, Oversized(reason, actualBytes, byteLimit));
        PropagateInv(p, st[id := Oversized(reason, actualBytes, byteLimit)]);
      }
    case MarkPendingNotDispatched(reason) =>
      RefusalsSound(p.spec.snapshotIdentity, reason, 0, 0);
      MarkPendingInv(p, st, Refused(reason));
  }

  lemma BlockableKept(p: Plan, before: RunStates, after: RunStates, id: string)
    requires after.Keys == before.Keys && Blockable(p, after, id) && before[id].Pending?
    requires forall d :: d in after && after[d].Blocks() ==> before[d].Blocks()
    ensures Blockable(p, before, id)
  {
    var blockers := BlockingAmong(after, p.deps[id]);
    BlockingAmongMembers(after, p.deps[id]);
    BlockingAmongMembers(before, p.deps[id]);
    assert blockers[0] in blockers && blockers[0] in BlockingAmong(before, p.deps[id]);
  }

  /** Fewer pending nodes and no new blocking ones leave nothing new to block. */
  lemma SettledKept(p: Plan, before: RunStates, after: RunStates)
    requires Settled(p, before) && after.Keys == before.Keys
    requires forall id :: id in after ==> (after[id].Pending? ==> before[id].Pending?) && (after[id].Blocks() ==> before[id].Blocks())
    ensures Settled(p, after)
  {
    forall id | id in after ensures !Blockable(p, after, id) {
      if Blockable(p, after, id) {
        BlockableKept(p, before, after, id);
      }
    }
  }

  lemma ApplySettled(p: Plan, st: RunStates, op: Op)
    requires Settled(p, st)
    ensures Settled(p, Apply(p, st, op))
  {
    match op
    case NextBatch => SettledKept(p, st, Start(st, BatchIds(p, st)));
    case Record(id, outcome) =>
      var settled := Settle(p.spec.snapshotIdentity, outcome);
      if IsRunning(st, id) && settled.Some? {
        PropagateFrame(p, st[id := settled.value]);
      }
    case RecordNotDispatched(id, reason) =>
      if IsRunning(st, id) {
        SettledKept(p, st, st[id := Refused(reason)]);
      }
    case RecordSkippedOversize(id, reason, actualBytes, byteLimit) =>
      if IsRunning(st, id) {
        PropagateFrame(p, st[id := Oversized(reason, actualBytes, byteLimit)]);
      }
    case MarkPendingNotDispatched(reason) => SettledKept(p, st, MarkPending(st, Refused(reason)));
  }

  lemma UnstartedStable(p: Plan)
    requires PlanOk(p)
    ensures Stable(p, Unstarted(p))
  {
    UnstartedInv(p);
    forall id | id in Unstarted(p) ensures !Blockable(p, Unstarted(p), id) {
      NoBlockers(Unstarted(p), p.deps[id]);
    }
  }

  lemma {:induction false} NoBlockers(st: RunStates, ids: seq<string>)
    requires forall d :: d in ids && d in st ==> !st[d].Blocks()
    ensures BlockingAmong(st, ids) == []
  {
    if ids != [] {
      assert ids[0] in ids && forall d :: d in ids[1..] ==> d in ids;
      NoBlockers(st, ids[1..]);
    }
  }

  /** Safety over whole runs: any operations, in any order, from a new or resumed coordinator. */
  lemma {:induction false} RunSafe(p: Plan, st: RunStates, ops: seq<Op>)
    requires PlanOk(p) && Stable(p, st)
    ensures Stable(p, ApplyAll(p, st, ops)) && Grows(st, ApplyAll(p, st, ops))
    decreases |ops|
  {
    if ops != [] {
      ApplyInv(p, st, ops[0]);
      ApplySettled(p, st, ops[0]);
      RunSafe(p, Apply(p, st, ops[0]), ops[1..]);
    }
  }

  /** Everything handed to an executor is bound to the specification's snapshot. */
  lemma {:induction false} InputsBound(p: Plan, st: RunStates, ids: seq<string>)
    requires Inv(p, st)
    ensures Bound(p.spec.snapshotIdentity, Inputs(st, ids))
  {
    if ids != [] {
      InputsBound(p, st, ids[1..]);
      assert ids[0] in st ==> NodeOk(p, st, ids[0]);
    }
  }

  /** Blocked nodes need a node that blocks by itself. */
  lemma NoSourceNoBlock(p: Plan, st: RunStates, id: string)
    requires PlanOk(p) && Inv(p, st) && id in st
    requires forall x :: x in st && st[x].Blocks() ==> st[x].DependencyBlocked?
    ensures !st[id].Blocks()
  {
    forall x | x in st ensures BlockListOk(p, st, x) {
      assert NodeOk(p, st, x);
    }
    if st[id].Blocks() {
      var path := BlockedTraces(p, st, id);
    }
  }

  /** After a batch is started, either every slot is taken or nothing is ready, and what is still ready comes later in id order. */
  lemma BatchFills(p: Plan, st: RunStates)
    requires PlanOk(p) && Stable(p, st)
    ensures var next := Apply(p, st, NextBatch);
            && (|RunningIds(next)| == p.spec.maxConcurrency || ReadyIds(p, next) == {})
            && (forall id, later :: id in RunningIds(next) && id !in RunningIds(st) && later in ReadyIds(p, next) ==> Below(id, later))
            && RunningIds(next) <= RunningIds(st) + ReadyIds(p, st)
  {
    var ids, ready := BatchIds(p, st), Ascend(ReadyIds(p, st));
    var next := Apply(p, st, NextBatch);
    assert next == Start(st, ids);
    BatchMembers(p, st);
    StartedCount(p, st, ids);
    StillReady(p, st, ids);
    hide *;
    BatchPrefix(p, st);
  }

  /** The batch is the front of the ready nodes, and shorter only when the slots run out. */
  lemma BatchPrefix(p: Plan, st: RunStates)
    ensures var ids, ready := BatchIds(p, st), Ascend(ReadyIds(p, st));
            && |ids| <= |ready| && ids == ready[..|ids|] && Ascending(ready)
            && (|ids| == Available(p, st) || ids == ready)
            && (forall id :: id in ready <==> id in ReadyIds(p, st))
  {
  }

  lemma StillReady(p: Plan, st: RunStates, ids: seq<string>)
    requires forall id :: id in ids ==> id in ReadyIds(p, st)
    ensures ReadyIds(p, Start(st, ids)) == ReadyIds(p, st) - Elements(ids)
    ensures RunningIds(Start(st, ids)) == RunningIds(st) + Elements(ids)
  {
    var next := Start(st, ids);
    forall id | id in st && id in p.deps && next[id].Pending? ensures AllSucceeded(next, p.deps[id]) <==> AllSucceeded(st, p.deps[id]) {
      assert forall d :: d in st ==> (next[d].Succeeded? <==> st[d].Succeeded?);
    }
  }

  lemma StartedCount(p: Plan, st: RunStates, ids: seq<string>)
    requires Ascending(ids) && forall id :: id in ids ==> id in ReadyIds(p, st)
    ensures |RunningIds(Start(st, ids))| == |RunningIds(st)| + |ids|
  {
    StillReady(p, st, ids);
    AscendingSize(ids);
    assert RunningIds(st) !! Elements(ids);
  }

  lemma {:induction false} AscendingSize(s: seq<string>)
    requires Ascending(s)
    ensures |Elements(s)| == |s|
  {
    if s != [] {
      AscendingSize(s[1..]);
      assert Elements(s) == {s[0]} + Elements(s[1..]);
      forall i | 1 <= i < |s| ensures s[i] != s[0] {
        AscendingDistinct(s, 0, i);
      }
    }
  }

  /** How many artifacts the first `i` of some nodes hold. */
  function ArtifactsBefore(st: RunStates, ids: seq<string>, i: nat): nat
    requires i <= |ids| && AllSucceeded(st, ids)
  {
    if i == 0 then 0 else ArtifactsBefore(st, ids, i - 1) + |st[ids[i - 1]].artifacts|
  }

  lemma {:induction false} ArtifactsAfterFirst(st: RunStates, ids: seq<string>, i: nat)
    requires 0 < i <= |ids| && AllSucceeded(st, ids)
    ensures AllSucceeded(st, ids[1..])
    ensures ArtifactsBefore(st, ids, i) == |st[ids[0]].artifacts| + ArtifactsBefore(st, ids[1..], i - 1)
  {
    if i > 1 {
      ArtifactsAfterFirst(st, ids, i - 1);
      assert ids[1..][i - 2] == ids[i - 1];
    }
  }

  /** Every artifact of every node, node after node, and nothing else. */
  ghost predicate HoldsArtifacts(st: RunStates, ids: seq<string>, inputs: seq<ArtifactRef>)
    requires AllSucceeded(st, ids)
  {
    && |inputs| == ArtifactsBefore(st, ids, |ids|)
    && forall i: nat, j: nat {:trigger HoldsArtifact(st, ids, inputs, i, j)} ::
         i < |ids| && j < |st[ids[i]].artifacts| ==> HoldsArtifact(st, ids, inputs, i, j)
  }

  /** Artifact `j` of node `i` stands behind all artifacts of the nodes before. */
  ghost predicate HoldsArtifact(st: RunStates, ids: seq<string>, inputs: seq<ArtifactRef>, i: nat, j: nat)
    requires AllSucceeded(st, ids) && i < |ids| && j < |st[ids[i]].artifacts|
  {
    var at := ArtifactsBefore(st, ids, i) + j;
    at < |inputs| && inputs[at] == st[ids[i]].artifacts[j]
  }

  lemma {:induction false} InputsCount(st: RunStates, ids: seq<string>)
    requires AllSucceeded(st, ids)
    ensures |Inputs(st, ids)| == ArtifactsBefore(st, ids, |ids|)
  {
    if ids != [] {
      ArtifactsAfterFirst(st, ids, |ids|);
      InputsCount(st, ids[1..]);
      hide ArtifactsBefore;
    }
  }

  lemma {:induction false} InputsAt(st: RunStates, ids: seq<string>, i: nat, j: nat)
    requires AllSucceeded(st, ids) && i < |ids| && j < |st[ids[i]].artifacts|
    ensures HoldsArtifact(st, ids, Inputs(st, ids), i, j)
    decreases |ids|
  {
    var first, rest := st[ids[0]].artifacts, Inputs(st, ids[1..]);
    assert Inputs(st, ids) == first + rest;
    if i > 0 {
      ArtifactsAfterFirst(st, ids, i);
      assert ids[1..][i - 1] == ids[i];
      InputsAt(st, ids[1..], i - 1, j);
      var at := ArtifactsBefore(st, ids[1..], i - 1) + j;
      assert (first + rest)[|first| + at] == rest[at];
    }
  }

  lemma InputsHold(st: RunStates, ids: seq<string>)
    requires AllSucceeded(st, ids)
    ensures HoldsArtifacts(st, ids, Inputs(st, ids))
  {
    InputsCount(st, ids);
    hide Inputs, ArtifactsBefore, HoldsArtifact;
    forall i: nat, j: nat | i < |ids| && j < |st[ids[i]].artifacts| ensures HoldsArtifact(st, ids, Inputs(st, ids), i, j) {
      InputsAt(st, ids, i, j);
    }
  }

  /** A dispatch of a node: its own capability and request, and what its dependencies, all succeeded, hold. */
  ghost predicate Delivers(p: Plan, st: RunStates, d: Dispatch) {
    && d.nodeId in p.nodes && d.nodeId in p.deps
    && d.capability == p.nodes[d.nodeId].capability && d.requestIdentity == p.nodes[d.nodeId].requestIdentity
    && AllSucceeded(st, p.deps[d.nodeId]) && HoldsArtifacts(st, p.deps[d.nodeId], d.inputs)
  }

  lemma DispatchDelivers(p: Plan, st: RunStates, id: string)
    requires Covers(p, st) && id in ReadyIds(p, st)
    ensures Delivers(p, st, DispatchFor(p, st, id))
  {
    InputsHold(st, p.deps[id]);
  }
}
