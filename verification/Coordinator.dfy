/** The coordinator itself: a mutable state map over an immutable plan, driven batch by batch. */
module Coordination {
  import opened Lexical
  import opened Acyclicity
  import opened Text
  import opened Specification
  import opened Identity
  import opened States
  import opened Blocking
  import opened Operations
  import opened Evaluation
  import opened Resumption

  datatype RunOutcome =
    | Completed | DomainFailure | DomainUnknown | TimedOutRun | ProcessFailedRun | Failed | Incomplete | BudgetStopped

  const RUN_MANIFEST_SCHEMA := "code-intel-run-manifest.v1"

  datatype RunManifest = RunManifest(
    schema: string, runIdentity: CanonicalSpec, snapshotIdentity: string, outcome: RunOutcome, nodes: RunStates)

  /** Timeouts outrank process failures, which outrank domain failures, which outrank unknown verdicts. */
  function OutcomeOf(st: RunStates): RunOutcome {
    if exists id :: id in st && st[id].TimedOut? then TimedOutRun
    else if exists id :: id in st && st[id].ProcessFailed? then ProcessFailedRun
    else if exists id :: id in st && st[id].DomainFailed? then DomainFailure
    else if exists id :: id in st && st[id].Succeeded? && st[id].verdict == Unknown then DomainUnknown
    else if AllTerminal(st) then Completed
    else Incomplete
  }

  ghost predicate AllSatisfied(st: RunStates) {
    forall id :: id in st ==> st[id].Succeeded? && st[id].verdict != Unknown
  }

  /** A node refused for a reason, which is kept unless it is blank. */
  predicate HeldRefused(s: NodeState, reason: string) {
    s.NotDispatched? && !IsBlank(s.reason) && (!IsBlank(reason) ==> s.reason == reason)
  }

  /** A node skipped for a reason, with its size and the limit it met. */
  predicate HeldSkipped(s: NodeState, reason: string, actualBytes: u64, byteLimit: u64) {
    s.SkippedOversize? && s.actualBytes == actualBytes && s.byteLimit == byteLimit
    && !IsBlank(s.reason) && (!IsBlank(reason) ==> s.reason == reason)
  }

  lemma RefusedHeld(reason: string, actualBytes: u64, byteLimit: u64)
    ensures HeldRefused(Refused(reason), reason) && HeldSkipped(Oversized(reason, actualBytes, byteLimit), reason, actualBytes, byteLimit)
  {
    assert !IsBlank(NOT_DISPATCHED_FALLBACK) by {
      assert !IsWhitespace(NOT_DISPATCHED_FALLBACK[0]);
    }
    assert !IsBlank(OVERSIZE_FALLBACK) by {
      assert !IsWhitespace(OVERSIZE_FALLBACK[0]);
    }
  }

  lemma SkippedHeld(p: Plan, st: RunStates, id: string, reason: string, actualBytes: u64, byteLimit: u64)
    requires IsRunning(st, id)
    ensures var next := Apply(p, st, Op.RecordSkippedOversize(id, reason, actualBytes, byteLimit));
            id in next && HeldSkipped(next[id], reason, actualBytes, byteLimit)
  {
    RefusedHeld(reason, actualBytes, byteLimit);
    PropagateGrows(p, st[id := Oversized(reason, actualBytes, byteLimit)]);
    hide HeldSkipped, NonemptyDiagnostic;
  }

  /** Some executed node's dispatch was answered in this way. */
  ghost predicate SomeAnswer(p: Plan, exec: Executor, st: RunStates, kind: NodeOutcome -> bool) {
    exists id :: id in st && id in p.nodes && id in p.deps && st[id].Executed() && kind(exec(DispatchFor(p, st, id)))
  }

  /** An answer of a kind exists exactly when a state of the matching kind does. */
  lemma AnswersByState(p: Plan, exec: Executor, st: RunStates, kind: NodeOutcome -> bool, state: NodeState -> bool)
    requires Covers(p, st) && AnswersKept(p, exec, st)
    requires forall s: NodeState :: state(s) ==> s.Executed()
    requires forall outcome, s: NodeState :: StoredAs(outcome, s) ==> (kind(outcome) <==> state(s))
    ensures SomeAnswer(p, exec, st, kind) <==> exists id :: id in st && state(st[id])
  {
    if SomeAnswer(p, exec, st, kind) {
      var id :| id in st && id in p.nodes && id in p.deps && st[id].Executed() && kind(exec(DispatchFor(p, st, id)));
      assert StoredAs(exec(DispatchFor(p, st, id)), st[id]);
    }
    if id :| id in st && state(st[id]) {
      assert StoredAs(exec(DispatchFor(p, st, id)), st[id]);
    }
  }

  predicate AnsweredTimeout(outcome: NodeOutcome) {
    outcome.Timeout?
  }

  predicate AnsweredFault(outcome: NodeOutcome) {
    outcome.ProcessFailure?
  }

  predicate AnsweredBadly(outcome: NodeOutcome) {
    outcome.DomainFail? || (outcome.Success? && outcome.verdict == Fail)
  }

  predicate AnsweredUnknown(outcome: NodeOutcome) {
    outcome.Success? && outcome.verdict == Unknown
  }

  predicate HeldUnknown(s: NodeState) {
    s.Succeeded? && s.verdict == Unknown
  }

  /** What the outcome of a run says of the executor's answers. */
  ghost predicate OutcomeAnswers(p: Plan, exec: Executor, st: RunStates, outcome: RunOutcome) {
    var timeout, process := SomeAnswer(p, exec, st, AnsweredTimeout), SomeAnswer(p, exec, st, AnsweredFault);
    var domain, unknown := SomeAnswer(p, exec, st, AnsweredBadly), SomeAnswer(p, exec, st, AnsweredUnknown);
    && (outcome == TimedOutRun <==> timeout)
    && (outcome == ProcessFailedRun <==> process && !timeout)
    && (outcome == DomainFailure <==> domain && !process && !timeout)
    && (outcome == DomainUnknown <==> unknown && !domain && !process && !timeout)
    && (outcome == Completed <==> AllAnsweredWell(p, exec, st))
  }

  lemma OutcomeRanks(st: RunStates)
    requires AllTerminal(st)
    ensures var timeout, process := exists id :: id in st && st[id].TimedOut?, exists id :: id in st && st[id].ProcessFailed?;
            var domain, unknown := exists id :: id in st && st[id].DomainFailed?, exists id :: id in st && HeldUnknown(st[id]);
            && (OutcomeOf(st) == TimedOutRun <==> timeout)
            && (OutcomeOf(st) == ProcessFailedRun <==> process && !timeout)
            && (OutcomeOf(st) == DomainFailure <==> domain && !process && !timeout)
            && (OutcomeOf(st) == DomainUnknown <==> unknown && !domain && !process && !timeout)
            && (OutcomeOf(st) == Completed <==> !unknown && !domain && !process && !timeout)
  {
  }

  lemma AnswerKinds(p: Plan, exec: Executor, st: RunStates)
    requires Covers(p, st) && AnswersKept(p, exec, st)
    ensures SomeAnswer(p, exec, st, AnsweredTimeout) <==> exists id :: id in st && st[id].TimedOut?
    ensures SomeAnswer(p, exec, st, AnsweredFault) <==> exists id :: id in st && st[id].ProcessFailed?
    ensures SomeAnswer(p, exec, st, AnsweredBadly) <==> exists id :: id in st && st[id].DomainFailed?
    ensures SomeAnswer(p, exec, st, AnsweredUnknown) <==> exists id :: id in st && HeldUnknown(st[id])
  {
    hide SomeAnswer, AnswersKept, DispatchFor;
    AnswersByState(p, exec, st, AnsweredTimeout, (s: NodeState) => s.TimedOut?);
    AnswersByState(p, exec, st, AnsweredFault, (s: NodeState) => s.ProcessFailed?);
    AnswersByState(p, exec, st, AnsweredBadly, (s: NodeState) => s.DomainFailed?);
    AnswersByState(p, exec, st, AnsweredUnknown, HeldUnknown);
  }

  /** The outcome of a finished run is decided by the executor's answers to the final dispatches, timeouts first. */
  lemma OutcomeFromAnswers(p: Plan, exec: Executor, st: RunStates)
    requires PlanOk(p) && Inv(p, st) && AnswersKept(p, exec, st) && AllTerminal(st)
    requires forall id :: id in st ==> !st[id].NotDispatched? && !st[id].SkippedOversize?
    ensures OutcomeAnswers(p, exec, st, OutcomeOf(st))
  {
    AnswerKinds(p, exec, st);
    OutcomeRanks(st);
    WellAnswered(p, exec, st);
    hide SomeAnswer, AnswersKept, AllAnsweredWell, OutcomeOf, Inv, PlanOk, HeldUnknown;
  }

  /** A finished run that nothing blocked by failing has answers of the good kind only, and the other way round. */
  lemma WellAnswered(p: Plan, exec: Executor, st: RunStates)
    requires PlanOk(p) && Inv(p, st) && AnswersKept(p, exec, st) && AllTerminal(st)
    requires forall id :: id in st ==> !st[id].NotDispatched? && !st[id].SkippedOversize?
    ensures AllAnsweredWell(p, exec, st) <==> forall id :: id in st ==> !st[id].TimedOut? && !st[id].ProcessFailed? && !st[id].DomainFailed? && !HeldUnknown(st[id])
  {
    if AllAnsweredWell(p, exec, st) {
      forall id | id in st ensures !st[id].TimedOut? && !st[id].ProcessFailed? && !st[id].DomainFailed? && !HeldUnknown(st[id]) {
        WellAnsweredNode(p, exec, st, id);
        assert AnsweredWell(exec(DispatchFor(p, st, id)));
      }
    }
    if forall id :: id in st ==> !st[id].TimedOut? && !st[id].ProcessFailed? && !st[id].DomainFailed? && !HeldUnknown(st[id]) {
      forall id | id in st ensures AnsweredWell(exec(DispatchFor(p, st, id))) {
        WellAnsweredNode(p, exec, st, id);
        NoSourceNoBlock(p, st, id);
      }
    }
  }

  lemma WellAnsweredNode(p: Plan, exec: Executor, st: RunStates, id: string)
    requires Inv(p, st) && AnswersKept(p, exec, st) && id in st
    ensures st[id].Executed() ==> (AnsweredWell(exec(DispatchFor(p, st, id))) <==> st[id].Succeeded? && !HeldUnknown(st[id]))
  {
    assert NodeOk(p, st, id);
    assert st[id].Executed() ==> StoredAs(exec(DispatchFor(p, st, id)), st[id]);
    hide Inv, AnswersKept, DispatchFor;
  }

  function ManifestOf(p: Plan, st: RunStates): RunManifest {
    RunManifest(RUN_MANIFEST_SCHEMA, Canonical(p.spec), p.spec.snapshotIdentity, OutcomeOf(st), st)
  }

  function NotRunning(id: string): CoordinatorError {
    CoordinatorError(InvalidTransition, NodeNotRunning(id))
  }

  function ForeignArtifact(id: string): CoordinatorError {
    CoordinatorError(InvalidTransition, ForeignSnapshot(id))
  }

  /** The dispatches of the batch that a settled state is due. */
  ghost predicate BatchOf(p: Plan, settled: RunStates, batch: seq<Dispatch>) {
    && |batch| == |BatchIds(p, settled)|
    && forall i :: 0 <= i < |batch| ==>
         var id := BatchIds(p, settled)[i];
         id in p.nodes && id in p.deps && batch[i] == DispatchFor(p, settled, id)
  }

  /** One stored state brought back: executed states are checked, everything else starts over. */
  function RestoreState(snapshot: string, id: string, s: NodeState): (r: Result<NodeState, CoordinatorError>)
    ensures r.Ok? <==> Restorable(snapshot, s)
    ensures r.Ok? ==> r.value == if s.Executed() then s else Pending
    ensures r.Err? ==> r.error.kind == ResumeIdentityMismatch
  {
    match s
    case Succeeded(verdict, artifacts) =>
      if verdict == Fail || !Bound(snapshot, artifacts) then Err(Mismatch(CompletedNodeInvalid(id)))
      else Ok(s)
    case DomainFailed(diagnostic, artifacts) =>
      if IsBlank(diagnostic) || !Bound(snapshot, artifacts) then
        Err(Mismatch(DomainFailedNodeInvalid(id)))
      else Ok(s)
    case TimedOut(diagnostic) =>
      if IsBlank(diagnostic) then Err(Mismatch(TimeoutDiagnosticEmpty(id))) else Ok(s)
    case ProcessFailed(_, diagnostic) =>
      if IsBlank(diagnostic) then Err(Mismatch(ProcessDiagnosticEmpty(id))) else Ok(s)
    case _ => Ok(Pending)
  }

  const NO_SCHEDULABLE_WORK := CoordinatorError(InvalidTransition, NoSchedulableWork)

  function Mismatch(detail: Detail): CoordinatorError {
    CoordinatorError(ResumeIdentityMismatch, detail)
  }

  class Coordinator {
    const plan: Plan
    const runIdentity: CanonicalSpec
    var states: RunStates

    ghost predicate Valid()
      reads this
    {
      PlanOk(plan) && Stable(plan, states) && runIdentity == Canonical(plan.spec)
    }

    constructor (plan: Plan)
      requires PlanOk(plan)
      ensures Valid() && this.plan == plan && states == Unstarted(plan)
    {
      this.plan := plan;
      this.runIdentity := Canonical(plan.spec);
      this.states := Unstarted(plan);
      new;
      UnstartedStable(plan);
    }

    static method New(spec: DagSpec) returns (r: Result<Coordinator, CoordinatorError>)
      ensures r.Ok? <==> ValidSpec(spec)
      ensures r.Ok? ==> fresh(r.value) && r.value.Valid() && r.value.plan == PlanOf(spec) && r.value.states == Unstarted(PlanOf(spec))
      ensures r.Err? ==> Defect(spec, r.error.kind)
    {
      var plan := ValidateSpec(spec);
      if plan.Err? {
        return Err(plan.error);
      }
      ValidSpecPlan(spec);
      var coordinator := new Coordinator(plan.value);
      r := Ok(coordinator);
    }

    /** Rebuilds a coordinator from a checkpoint of the same specification. */
    static method Resume(spec: DagSpec, checkpoint: RunCheckpoint) returns (r: Result<Coordinator, CoordinatorError>)
      ensures r.Ok? <==> ValidSpec(spec) && Accepted(PlanOf(spec), checkpoint)
      ensures r.Ok? ==> fresh(r.value) && r.value.Valid() && r.value.plan == PlanOf(spec)
      ensures r.Ok? ==> r.value.states == Resumed(PlanOf(spec), checkpoint.nodes)
      ensures r.Ok? ==> checkpoint.schema == "code-intel-run-state.v1" && checkpoint.runIdentity == Canonical(spec)
      // A checkpoint of other work is refused as such.
      ensures ValidSpec(spec) && OfOtherWork(spec, checkpoint) ==> r.Err? && r.error.kind == ResumeIdentityMismatch
      ensures r.Err? && ValidSpec(spec) ==> r.error.kind == ResumeIdentityMismatch
      ensures r.Err? && !ValidSpec(spec) ==> Defect(spec, r.error.kind)
    {
      OtherWorkNeverAccepted(spec, checkpoint);
      r := New(spec);
      if r.Err? {
        return r;
      }
      var admitted := r.value.Admit(checkpoint);
      if admitted.Err? {
        return Err(admitted.error);
      }
      ResumedStable(PlanOf(spec), checkpoint);
    }

    /** Checks identity, node names, history and stored states, then restores. */
    method Admit(checkpoint: RunCheckpoint) returns (r: Result<(), CoordinatorError>)
      requires PlanOk(plan) && runIdentity == Canonical(plan.spec) && states == Unstarted(plan)
      modifies this`states
      ensures r.Ok? <==> Accepted(plan, checkpoint)
      ensures r.Ok? ==> states == Resumed(plan, checkpoint.nodes)
      ensures r.Err? ==> r.error.kind == ResumeIdentityMismatch
    {
      if checkpoint.schema != RUN_STATE_SCHEMA || checkpoint.runIdentity != runIdentity {
        return Err(Mismatch(IdentityDiffers));
      }
      var unknown := checkpoint.nodes.Keys - plan.nodes.Keys;
      if unknown != {} {
        assert First(unknown) in checkpoint.nodes.Keys && First(unknown) !in plan.nodes.Keys;
        return Err(Mismatch(CheckpointNodeUnknown(First(unknown))));
      }
      assert forall id :: id in checkpoint.nodes.Keys ==> id !in unknown;
      r := ValidateCheckpointHistory(checkpoint.nodes);
      if r.Ok? {
        r := Restore(checkpoint.nodes);
      }
    }

    method ValidateCheckpointHistory(nodes: RunStates) returns (r: Result<(), CoordinatorError>)
      requires PlanOk(plan) && nodes.Keys <= plan.nodes.Keys
      ensures r.Ok? <==> forall id :: id in nodes ==> HistoryAt(plan, nodes, id)
      ensures r.Err? ==> r.error.kind == ResumeIdentityMismatch
    {
      var todo := nodes.Keys;
      while todo != {}
        invariant todo <= nodes.Keys
        invariant forall id :: id in nodes && id !in todo ==> HistoryAt(plan, nodes, id)
      {
        var id := First(todo);
        todo := todo - {id};
        var dependencies := plan.deps[id];
        if nodes[id].Executed() && !AllSucceeded(nodes, dependencies) {
          return Err(Mismatch(FinalizedTooEarly(id)));
        }
        if nodes[id].DependencyBlocked? {
          var expected := BlockingAmong(nodes, dependencies);
          if expected == [] || nodes[id].blockedBy != expected {
            return Err(Mismatch(BlockHistoryInconsistent(id)));
          }
        }
      }
      r := Ok(());
    }

    /** Puts executed nodes back, resets the rest to pending, and propagates. */
    method Restore(nodes: RunStates) returns (r: Result<(), CoordinatorError>)
      requires states == Unstarted(plan) && nodes.Keys <= plan.nodes.Keys
      modifies this`states
      ensures r.Ok? <==> forall id :: id in nodes ==> Restorable(plan.spec.snapshotIdentity, nodes[id])
      ensures r.Ok? ==> states == Resumed(plan, nodes)
      ensures r.Err? ==> r.error.kind == ResumeIdentityMismatch
    {
      var todo := nodes.Keys;
      while todo != {}
        invariant todo <= nodes.Keys && states.Keys == plan.nodes.Keys
        invariant forall id :: id in nodes && id !in todo ==> Restorable(plan.spec.snapshotIdentity, nodes[id])
        invariant forall id :: id in states ==> states[id] == if id in todo then Pending else RestoredAt(nodes, id)
      {
        var id := First(todo);
        todo := todo - {id};
        var restored := RestoreState(plan.spec.snapshotIdentity, id, nodes[id]);
        if restored.Err? {
          return Err(restored.error);
        }
        states := states[id := restored.value];
      }
      assert states == Restored(plan, nodes);
      PropagateBlocked();
      r := Ok(());
    }

    method PropagateBlocked()
      modifies this`states
      ensures states == Propagate(plan, old(states))
    {
      ghost var start := states;
      while true
        invariant Propagate(plan, states) == Propagate(plan, start)
        decreases |PendingIds(states)|
      {
        var st := states;
        var blocked := map id | id in st && Blockable(plan, st, id) :: BlockingAmong(st, plan.deps[id]);
        RoundByMap(plan, st, blocked);
        if blocked == map[] {
          break;
        }
        states := map id | id in st :: if id in blocked then DependencyBlocked(blocked[id]) else st[id];
      }
    }

    method RecordNotDispatched(id: string, reason: string) returns (r: Result<(), CoordinatorError>)
      requires Valid()
      modifies this`states
      ensures Valid() && states == Apply(plan, old(states), Op.RecordNotDispatched(id, reason))
      ensures r.Ok? ==> id in states && HeldRefused(states[id], reason) && forall x :: x in states && x != id ==> states[x] == old(states)[x]
      ensures r == if IsRunning(old(states), id) then Ok(()) else Err(NotRunning(id))
    {
      RefusedHeld(reason, 0, 0);
      ApplyInv(plan, states, Op.RecordNotDispatched(id, reason));
      ApplySettled(plan, states, Op.RecordNotDispatched(id, reason));
      if !IsRunning(states, id) {
        return Err(NotRunning(id));
      }
      states := states[id := Refused(reason)];
      r := Ok(());
    }

    method RecordSkippedOversize(id: string, reason: string, actualBytes: u64, byteLimit: u64) returns (r: Result<(), CoordinatorError>)
      requires Valid()
      modifies this`states
      ensures Valid() && states == Apply(plan, old(states), Op.RecordSkippedOversize(id, reason, actualBytes, byteLimit))
      ensures r.Ok? ==> id in states && HeldSkipped(states[id], reason, actualBytes, byteLimit)
      ensures r == if IsRunning(old(states), id) then Ok(()) else Err(NotRunning(id))
    {
      if IsRunning(states, id) {
        SkippedHeld(plan, states, id, reason, actualBytes, byteLimit);
      }
      hide HeldSkipped, NonemptyDiagnostic;
      ApplyInv(plan, states, Op.RecordSkippedOversize(id, reason, actualBytes, byteLimit));
      ApplySettled(plan, states, Op.RecordSkippedOversize(id, reason, actualBytes, byteLimit));
      if !IsRunning(states, id) {
        return Err(NotRunning(id));
      }
      states := states[id := Oversized(reason, actualBytes, byteLimit)];
      PropagateBlocked();
      r := Ok(());
    }

    method MarkPendingNotDispatched(reason: string)
      requires Valid()
      modifies this`states
      ensures Valid() && states == Apply(plan, old(states), Op.MarkPendingNotDispatched(reason))
      ensures states.Keys == old(states).Keys
      ensures forall id :: id in states ==>
                if old(states)[id].Pending? then HeldRefused(states[id], reason) else states[id] == old(states)[id]
    {
      RefusedHeld(reason, 0, 0);
      ApplyInv(plan, states, Op.MarkPendingNotDispatched(reason));
      ApplySettled(plan, states, Op.MarkPendingNotDispatched(reason));
      states := MarkPending(states, Refused(reason));
    }

    /** Starts the first ready nodes, in id order, that the concurrency bound still allows. */
    method NextBatch() returns (batch: seq<Dispatch>)
      requires Valid()
      modifies this`states
      ensures Valid() && states == Apply(plan, old(states), Op.NextBatch)
      ensures BatchOf(plan, old(states), batch)
      ensures forall i :: 0 <= i < |batch| ==> Delivers(plan, old(states), batch[i])
    {
      ApplyInv(plan, states, Op.NextBatch);
      ApplySettled(plan, states, Op.NextBatch);
      PropagateBlocked();
      BatchMembers(plan, states);
      ghost var ids, st := BatchIds(plan, states), states;
      forall i | 0 <= i < |ids| ensures ids[i] in plan.nodes && ids[i] in plan.deps && Delivers(plan, st, DispatchFor(plan, st, ids[i])) {
        assert ids[i] in ids;
        DispatchDelivers(plan, st, ids[i]);
      }
      batch := StartAll(BatchIds(plan, states));
    }

    /** Marks each node running and builds its dispatch from what has succeeded. */
    method StartAll(ids: seq<string>) returns (batch: seq<Dispatch>)
      requires Covers(plan, states)
      requires forall id :: id in ids ==> id in ReadyIds(plan, states)
      modifies this`states
      ensures states == Start(old(states), ids)
      ensures |batch| == |ids|
      ensures forall i :: 0 <= i < |ids| ==>
        ids[i] in plan.nodes && ids[i] in plan.deps && batch[i] == DispatchFor(plan, old(states), ids[i])
    {
      ghost var settled := states;
      batch := [];
      assert Start(settled, []) == settled;
      for k := 0 to |ids|
        invariant states == Start(settled, ids[..k])
        invariant |batch| == k
        invariant forall i :: 0 <= i < k ==>
          ids[i] in plan.nodes && ids[i] in plan.deps && batch[i] == DispatchFor(plan, settled, ids[i])
      {
        var id := ids[k];
        StartKeepsInputs(plan, settled, ids, k);
        var node := plan.nodes[id];
        batch := batch + [Dispatch(id, node.capability, node.requestIdentity, Inputs(states, plan.deps[id]))];
        states := states[id := Running];
      }
      assert ids[..|ids|] == ids;
    }

    method Record(id: string, outcome: NodeOutcome) returns (r: Result<(), CoordinatorError>)
      requires Valid()
      modifies this`states
      ensures Valid() && states == Apply(plan, old(states), Op.Record(id, outcome))
      // What was answered is what is stored.
      ensures r.Ok? <==> IsRunning(old(states), id) && Carries(plan.spec.snapshotIdentity, outcome)
      ensures if r.Ok? then id in states && StoredAs(outcome, states[id]) else states == old(states)
      ensures r == if !IsRunning(old(states), id) then Err(NotRunning(id))
                   else if Settle(plan.spec.snapshotIdentity, outcome).None? then Err(ForeignArtifact(id))
                   else Ok(())
    {
      RecordedAs(plan, states, id, outcome);
      SettlesExactly(plan.spec.snapshotIdentity, outcome);
      ApplyInv(plan, states, Op.Record(id, outcome));
      ApplySettled(plan, states, Op.Record(id, outcome));
      if !IsRunning(states, id) {
        return Err(NotRunning(id));
      }
      var state: NodeState;
      match outcome {
        case Success(verdict, artifacts) =>
          if !Bound(plan.spec.snapshotIdentity, artifacts) {
            return Err(ForeignArtifact(id));
          }
          state := if verdict == Fail then DomainFailed(VERDICT_FAIL_DIAGNOSTIC, artifacts) else Succeeded(verdict, artifacts);
        case DomainFail(diagnostic, artifacts) =>
          if !Bound(plan.spec.snapshotIdentity, artifacts) {
            return Err(ForeignArtifact(id));
          }
          state := DomainFailed(NonemptyDiagnostic(diagnostic, DOMAIN_FAIL_FALLBACK), artifacts);
        case Timeout(diagnostic) =>
          state := TimedOut(NonemptyDiagnostic(diagnostic, TIMEOUT_FALLBACK));
        case ProcessFailure(failure, diagnostic) =>
          state := ProcessFailed(failure, NonemptyDiagnostic(diagnostic, PROCESS_FALLBACK));
      }
      assert Settle(plan.spec.snapshotIdentity, outcome) == Some(state);
      states := states[id := state];
      PropagateBlocked();
      r := Ok(());
    }

    method Checkpoint() returns (checkpoint: RunCheckpoint)
      requires Valid()
      ensures checkpoint == CheckpointOf(plan, states)
      ensures checkpoint.nodes.Keys == states.Keys
      ensures forall id :: id in states ==> checkpoint.nodes[id] == if states[id].Running? then Pending else states[id]
    {
      checkpoint := RunCheckpoint(RUN_STATE_SCHEMA, runIdentity, Persisted(states));
    }

    method Manifest() returns (manifest: RunManifest)
      requires Valid()
      ensures manifest == ManifestOf(plan, states)
    {
      manifest := RunManifest(RUN_MANIFEST_SCHEMA, runIdentity, plan.spec.snapshotIdentity, OutcomeOf(states), states);
    }

    /** Records the results of a batch, in the order it was dispatched, which is id order. */
    method RecordResults(exec: Executor, ghost start: RunStates, batch: seq<Dispatch>, outcomes: seq<NodeOutcome>)
      returns (r: Result<(), CoordinatorError>)
      requires Valid() && Covers(plan, start) && Agrees(plan, exec, start, states)
      requires |outcomes| == |batch| && InFlight(plan, exec, start, states, batch, outcomes)
      requires Ascending(DispatchIds(batch))
      modifies this`states
      ensures Valid() && Agrees(plan, exec, start, states)
      ensures Finishes(old(states), states, if r.Ok? then Elements(DispatchIds(batch)) else {})
      ensures r.Err? ==> FailedBy(plan, exec, start, r.error)
    {
      assert batch[0..] == batch && outcomes[0..] == outcomes;
      ghost var first := states;
      for k := 0 to |batch|
        invariant Valid() && Agrees(plan, exec, start, states)
        invariant Finishes(first, states, Elements(DispatchIds(batch[..k])))
        invariant InFlight(plan, exec, start, states, batch[k..], outcomes[k..])
      {
        ghost var before := states;
        InFlightHead(plan, exec, start, before, batch[k..], outcomes[k..]);
        RecordStep(plan, exec, start, before, batch[k].nodeId, outcomes[k]);
        var recorded := Record(batch[k].nodeId, outcomes[k]);
        if recorded.Err? {
          SettlesExactly(plan.spec.snapshotIdentity, outcomes[k]);
          assert AnswersForeign(plan, exec, batch[k].nodeId);
          assert FailedBy(plan, exec, start, recorded.error);
          FinishesNone(first, states, Elements(DispatchIds(batch[..k])));
          return Err(recorded.error);
        }
        RecordCounts(plan, before, batch[k].nodeId, outcomes[k]);
        InFlightTail(plan, exec, start, before, states, batch, outcomes, k);
        FinishesOne(first, before, states, Elements(DispatchIds(batch[..k])), batch[k].nodeId);
      }
      assert batch[..|batch|] == batch;
      r := Ok(());
    }

    /** One turn of the loop: start the next batch, execute it, record what came back. */
    method RunBatch(exec: Executor, ghost start: RunStates) returns (r: Result<(), CoordinatorError>)
      requires Valid() && Covers(plan, start) && Agrees(plan, exec, start, states) && !AllTerminal(states)
      requires RunningIds(states) <= RunningIds(start)
      modifies this`states
      ensures Valid() && Agrees(plan, exec, start, states) && Grows(old(states), states)
      ensures r.Ok? ==> RunningIds(states) <= RunningIds(start) && |PendingIds(states)| < |PendingIds(old(states))|
      ensures r.Err? ==> RunError(plan, exec, start, r.error) && !NoneStuck(plan, exec, start)
    {
      ghost var before := states;
      BatchAgrees(plan, exec, start, before);
      BatchGrows(plan, before);
      var batch := NextBatch();
      if batch == [] {
        NoWorkMeansStuck(plan, exec, start, before);
        return Err(NO_SCHEDULABLE_WORK);
      }
      var outcomes := seq(|batch|, i requires 0 <= i < |batch| => exec(batch[i]));
      BatchInFlight(plan, exec, start, before, batch, outcomes);
      ghost var started := states;
      r := RecordResults(exec, start, batch, outcomes);
      SubsetSize(PendingIds(states), PendingIds(started));
    }

    /** Executes bounded batches until every node is terminal. */
    method RunToCompletion(exec: Executor) returns (r: Result<RunManifest, CoordinatorError>)
      requires Valid()
      modifies this`states
      ensures Valid() && Grows(old(states), states)
      // With nothing left over from before, an executor that keeps to the snapshot always brings the run to its end.
      ensures !LeftOver(old(states)) && Loyal(plan.spec.snapshotIdentity, exec) ==> r.Ok?
      ensures r.Ok? <==> NoneStuck(plan, exec, old(states))
      ensures r.Ok? ==> r.value == ManifestOf(plan, states) && AllTerminal(states)
      ensures r.Ok? ==> forall id :: id in states ==> StatusOf(states[id]) == Fate(plan, exec, old(states), id)
      // From a new coordinator, the answers to the final dispatches are what is stored, and decide the outcome.
      ensures r.Ok? && old(states) == Unstarted(plan) ==> AnswersKept(plan, exec, states) && OutcomeAnswers(plan, exec, states, r.value.outcome)
      ensures r.Err? ==> RunError(plan, exec, old(states), r.error)
    {
      ghost var start := states;
      AgreesStart(plan, exec, start);
      if !LeftOver(start) && Loyal(plan.spec.snapshotIdentity, exec) {
        LoyalNoneStuck(plan, exec, start);
      }
      while !AllTerminal(states)
        invariant Valid() && Agrees(plan, exec, start, states) && Grows(start, states)
        invariant RunningIds(states) <= RunningIds(start)
        decreases |PendingIds(states)|
      {
        var ran := RunBatch(exec, start);
        if ran.Err? {
          return Err(ran.error);
        }
      }
      FinishedIsFate(plan, exec, start, states);
      if start == Unstarted(plan) {
        NewRunAnswers(plan, exec, states);
      }
      var manifest := Manifest();
      r := Ok(manifest);
    }
  }

  /** A finished run that ended every node as a new run must. */
  lemma NewRunAnswers(p: Plan, exec: Executor, st: RunStates)
    requires PlanOk(p) && Inv(p, st) && AllTerminal(st)
    requires forall id :: id in st ==> StatusOf(st[id]) == Fate(p, exec, Unstarted(p), id)
    ensures AnswersKept(p, exec, st) && OutcomeAnswers(p, exec, st, OutcomeOf(st))
  {
    hide *;
    NewRunFaithful(p, exec, st);
    FaithfulAnswers(p, exec, st);
    OutcomeFromAnswers(p, exec, st);
  }

  lemma NewRunFaithful(p: Plan, exec: Executor, st: RunStates)
    requires PlanOk(p) && Inv(p, st) && forall id :: id in st ==> StatusOf(st[id]) == Fate(p, exec, Unstarted(p), id)
    ensures Faithful(p, exec, Unstarted(p), st)
    ensures forall id :: id in st ==> !st[id].NotDispatched? && !st[id].SkippedOversize?
  {
    assert Covers(p, st) && Covers(p, Unstarted(p)) && st.Keys == p.nodes.Keys;
    hide *;
    forall id | id in st
      ensures FaithfulAt(p, exec, Unstarted(p), id, st[id])
      ensures !st[id].NotDispatched? && !st[id].SkippedOversize?
    {
      EndedAsFate(p, exec, id, st[id]);
    }
    FaithfulWhen(p, exec, Unstarted(p), st);
  }

  lemma FaithfulWhen(p: Plan, exec: Executor, start: RunStates, st: RunStates)
    requires PlanOk(p) && Covers(p, start) && Covers(p, st) && forall id :: id in st ==> FaithfulAt(p, exec, start, id, st[id])
    ensures Faithful(p, exec, start, st)
  {
  }

  /** Resumes the checkpoint of a run interrupted any number of times, and finishes it. */
  method ResumeAndFinish(spec: DagSpec, checkpoint: RunCheckpoint, exec: Executor, ghost earlier: seq<seq<Op>>, ghost ops: seq<Op>)
    returns (r: Result<RunManifest, CoordinatorError>)
    requires ValidSpec(spec) && PlanOk(PlanOf(spec))
    requires var p := PlanOf(spec);
             var resumed := Interrupted(p, Unstarted(p), earlier);
             && HonestSessions(p, exec, Unstarted(p), earlier + [ops])
             && checkpoint == CheckpointOf(p, ApplyAll(p, resumed, ops))
    // The checkpoint is accepted, and the run then ends, exactly when the uninterrupted run would have ended.
    ensures var p := PlanOf(spec);
            r.Ok? <==> Accepted(p, checkpoint) && NoneStuck(p, exec, Unstarted(p))
    ensures Accepted(PlanOf(spec), checkpoint) && Loyal(spec.snapshotIdentity, exec) ==> r.Ok?
    // Every node then has the status it has at the end of the uninterrupted run.
    ensures r.Ok? ==> var p := PlanOf(spec);
              r.value.nodes.Keys == p.nodes.Keys
              && (forall id :: id in p.nodes ==> StatusOf(r.value.nodes[id]) == Fate(p, exec, Unstarted(p), id))
              && OutcomeAnswers(p, exec, r.value.nodes, r.value.outcome)
  {
    ghost var p := PlanOf(spec);
    InterruptedAgain(p, Unstarted(p), earlier, ops);
    ResumedRunEndsAlike(p, exec, earlier + [ops]);
    var resumed := Coordinator.Resume(spec, checkpoint);
    if resumed.Err? {
      return Err(resumed.error);
    }
    r := resumed.value.RunToCompletion(exec);
    if r.Ok? {
      NewRunAnswers(p, exec, resumed.value.states);
    }
  }

  /** How a run can fail: leftovers from before it started, or an executor that answered with a foreign artifact. */
  ghost predicate RunError(p: Plan, exec: Executor, start: RunStates, error: CoordinatorError)
    requires PlanOk(p) && Covers(p, start)
  {
    || (error == NO_SCHEDULABLE_WORK && LeftOver(start))
    || FailedBy(p, exec, start, error)
  }

  ghost predicate FailedBy(p: Plan, exec: Executor, start: RunStates, error: CoordinatorError)
    requires PlanOk(p) && Covers(p, start)
  {
    exists id {:trigger ForeignArtifact(id)} ::
      id in start && Fate(p, exec, start, id) == Stuck && AnswersForeign(p, exec, id) && error == ForeignArtifact(id)
  }

  /** The executor answers some dispatch of the node with an artifact of another snapshot. */
  ghost predicate AnswersForeign(p: Plan, exec: Executor, id: string) {
    exists d: Dispatch :: d.nodeId == id && !Carries(p.spec.snapshotIdentity, exec(d))
  }

  /** A loyal executor with nothing left over gives no run a way to fail. */
  lemma LoyalNoError(p: Plan, exec: Executor, start: RunStates, error: CoordinatorError)
    requires PlanOk(p) && Covers(p, start) && RunError(p, exec, start, error)
    ensures LeftOver(start) || !Loyal(p.spec.snapshotIdentity, exec)
  {
  }

  /** No terminal state was replaced, no node became pending, and at least `done` of the running nodes are running no more. */
  ghost predicate Finishes(before: RunStates, after: RunStates, done: set<string>) {
    && Grows(before, after) && PendingIds(after) <= PendingIds(before)
    && RunningIds(after) <= RunningIds(before) - done
  }

  lemma FinishesOne(first: RunStates, before: RunStates, after: RunStates, done: set<string>, id: string)
    requires Finishes(first, before, done) && Finishes(before, after, {id})
    ensures Finishes(first, after, done + {id})
  {
  }

  lemma FinishesNone(first: RunStates, after: RunStates, done: set<string>)
    requires Finishes(first, after, done)
    ensures Finishes(first, after, {})
  {
  }

  function DispatchIds(batch: seq<Dispatch>): seq<string> {
    seq(|batch|, i requires 0 <= i < |batch| => batch[i].nodeId)
  }

  /** Dispatches out with an executor: their nodes are running, and the outcomes are its answers. */
  ghost predicate InFlight(p: Plan, exec: Executor, start: RunStates, st: RunStates, batch: seq<Dispatch>, outcomes: seq<NodeOutcome>) {
    && |outcomes| == |batch|
    && forall i :: 0 <= i < |batch| ==> InFlightAt(p, exec, start, st, batch[i], outcomes[i])
  }

  ghost predicate InFlightAt(p: Plan, exec: Executor, start: RunStates, st: RunStates, dispatch: Dispatch, outcome: NodeOutcome) {
    var id := dispatch.nodeId;
    && IsRunning(st, id) && id in start && start[id].Pending? && id in p.nodes && id in p.deps
    && dispatch == DispatchFor(p, st, id) && outcome == exec(dispatch)
  }

  lemma BatchGrows(p: Plan, st: RunStates)
    requires PlanOk(p) && Stable(p, st)
    ensures Grows(st, Apply(p, st, Op.NextBatch))
  {
    ApplyInv(p, st, Op.NextBatch);
  }

  lemma InFlightHead(p: Plan, exec: Executor, start: RunStates, st: RunStates, batch: seq<Dispatch>, outcomes: seq<NodeOutcome>)
    requires batch != [] && InFlight(p, exec, start, st, batch, outcomes)
    ensures InFlightAt(p, exec, start, st, batch[0], outcomes[0])
  {
  }

  lemma InFlightTail(p: Plan, exec: Executor, start: RunStates, before: RunStates, after: RunStates,
                     batch: seq<Dispatch>, outcomes: seq<NodeOutcome>, k: nat)
    requires k < |batch| == |outcomes| && Ascending(DispatchIds(batch))
    requires Inv(p, before) && Grows(before, after) && InFlight(p, exec, start, before, batch[k..], outcomes[k..])
    requires RunningIds(after) == RunningIds(before) - {batch[k].nodeId}
    ensures InFlight(p, exec, start, after, batch[k + 1..], outcomes[k + 1..])
    ensures Elements(DispatchIds(batch[..k + 1])) == Elements(DispatchIds(batch[..k])) + {batch[k].nodeId}
  {
    var ids := DispatchIds(batch);
    forall j | k + 1 <= j < |batch| ensures InFlightAt(p, exec, start, after, batch[j], outcomes[j]) {
      assert InFlightAt(p, exec, start, before, batch[k..][j - k], outcomes[k..][j - k]);
      AscendingDistinct(ids, k, j);
      assert ids[j] in RunningIds(after);
      RunningDispatch(p, before, after, ids[j]);
    }
    assert DispatchIds(batch[..k + 1]) == DispatchIds(batch[..k]) + [batch[k].nodeId];
  }

  lemma BatchInFlight(p: Plan, exec: Executor, start: RunStates, st: RunStates, batch: seq<Dispatch>, outcomes: seq<NodeOutcome>)
    requires PlanOk(p) && Covers(p, start) && Agrees(p, exec, start, st) && Settled(p, st) && BatchOf(p, st, batch)
    requires outcomes == seq(|batch|, i requires 0 <= i < |batch| => exec(batch[i]))
    ensures InFlight(p, exec, start, Apply(p, st, Op.NextBatch), batch, outcomes)
    ensures DispatchIds(batch) == BatchIds(p, st) && Ascending(DispatchIds(batch))
  {
    BatchAgrees(p, exec, start, st);
    BatchMembers(p, st);
    assert DispatchIds(batch) == BatchIds(p, st);
    forall i | 0 <= i < |batch| ensures InFlightAt(p, exec, start, Apply(p, st, Op.NextBatch), batch[i], outcomes[i]) {
      assert BatchIds(p, st)[i] in BatchIds(p, st);
      BatchDispatch(p, st, BatchIds(p, st)[i]);
    }
  }

  /** The map of newly blocked nodes is one round, and it is empty exactly when nothing is blockable. */
  lemma RoundByMap(p: Plan, st: RunStates, blocked: map<string, seq<string>>)
    requires blocked == map id | id in st && Blockable(p, st, id) :: BlockingAmong(st, p.deps[id])
    ensures blocked == map[] ==> Propagate(p, st) == st
    ensures blocked != map[] ==> Propagate(p, st) == Propagate(p, BlockRound(p, st))
    ensures blocked != map[] ==> |PendingIds(BlockRound(p, st))| < |PendingIds(st)|
    ensures (map id | id in st :: if id in blocked then DependencyBlocked(blocked[id]) else st[id]) == BlockRound(p, st)
  {
    if blocked != map[] {
      var x :| x in blocked;
      BlockRoundShrinks(p, st, x);
      assert !Settled(p, st);
    } else {
      assert forall id :: id in st ==> id !in blocked;
      assert Settled(p, st);
    }
  }

  /** Starting part of a batch leaves every succeeded dependency, and so every input, as it was. */
  lemma StartKeepsInputs(p: Plan, settled: RunStates, ids: seq<string>, k: nat)
    requires Covers(p, settled) && k < |ids| && forall id :: id in ids ==> id in ReadyIds(p, settled)
    ensures ids[k] in p.nodes && ids[k] in p.deps
    ensures Inputs(Start(settled, ids[..k]), p.deps[ids[k]]) == Inputs(settled, p.deps[ids[k]])
    ensures Start(settled, ids[..k])[ids[k] := Running] == Start(settled, ids[..k + 1])
  {
    assert ids[..k + 1] == ids[..k] + [ids[k]];
    var partial := Start(settled, ids[..k]);
    assert ids[k] in ids;
    assert forall id :: id in ids[..k] ==> id in ids;
    InputsAgree(partial, settled, p.deps[ids[k]]);
  }
}
