/** The budgeted dispatch loop: admission before execution, refusals, and the outcome it reports. */
module BudgetedDispatch {
  import opened Lexical
  import opened Acyclicity
  import opened Text
  import opened Specification
  import opened Identity
  import opened States
  import opened Blocking
  import opened Operations
  import opened Evaluation
  import opened Resumption
  import opened Coordination
  import opened Budgeting

  type Estimator = Dispatch -> DispatchCost

  function RefusedIds(st: RunStates): set<string> {
    set id | id in st && st[id].NotDispatched?
  }

  function ExecutedIds(st: RunStates): set<string> {
    set id | id in st && st[id].Executed()
  }

  // ---------------------------------------------------------------- what a batch admits

  predicate Oversize(estimate: Estimator, policy: OversizePolicy, limit: u64, d: Dispatch) {
    policy.Exceeds(estimate(d).bytes, limit)
  }

  /** The dispatches the oversize policy lets through, in order. */
  function Admitted(estimate: Estimator, policy: OversizePolicy, limit: u64, batch: seq<Dispatch>): seq<Dispatch> {
    if batch == [] then []
    else
      var last := batch[|batch| - 1];
      Admitted(estimate, policy, limit, batch[..|batch| - 1]) + (if Oversize(estimate, policy, limit, last) then [] else [last])
  }

  /** Total estimated bytes. */
  function Charged(estimate: Estimator, dispatches: seq<Dispatch>): nat {
    if dispatches == [] then 0
    else Charged(estimate, dispatches[..|dispatches| - 1]) + estimate(dispatches[|dispatches| - 1]).bytes
  }

  lemma {:induction false} ChargedConcat(estimate: Estimator, a: seq<Dispatch>, b: seq<Dispatch>)
    ensures Charged(estimate, a + b) == Charged(estimate, a) + Charged(estimate, b)
    decreases |b|
  {
    if b == [] {
      assert a + b == a;
    } else {
      ChargedConcat(estimate, a, b[..|b| - 1]);
      assert (a + b)[..|a + b| - 1] == a + b[..|b| - 1];
    }
  }

  function IdSet(batch: seq<Dispatch>): set<string> {
    set d | d in batch :: d.nodeId
  }

  // ---------------------------------------------------------------- one step of the run

  /** What the whole loop keeps, whatever it refuses. */
  ghost predicate Kept(p: Plan, exec: Executor, start: RunStates, st: RunStates)
    requires PlanOk(p) && Covers(p, start)
  {
    Stable(p, st) && Grows(start, st) && Faithful(p, exec, start, st) && PendingIds(st) <= PendingIds(start)
  }

  /** An operation that records no result and makes nothing pending keeps all of it. */
  lemma KeptStep(p: Plan, exec: Executor, start: RunStates, st: RunStates, op: Op)
    requires PlanOk(p) && Covers(p, start) && Kept(p, exec, start, st) && !op.Record?
    requires PendingIds(Apply(p, st, op)) <= PendingIds(st)
    ensures Kept(p, exec, start, Apply(p, st, op)) && Grows(st, Apply(p, st, op))
  {
    ApplyInv(p, st, op);
    ApplySettled(p, st, op);
    FaithfulApply(p, exec, start, st, op);
  }

  lemma PropagateSets(p: Plan, st: RunStates)
    ensures RefusedIds(Propagate(p, st)) == RefusedIds(st) && ExecutedIds(Propagate(p, st)) == ExecutedIds(st)
  {
    PropagateFrame(p, st);
    assert forall id :: id in st ==> Step(p, st, Propagate(p, st), id);
  }

  lemma SkipSets(p: Plan, st: RunStates, id: string, s: NodeState)
    requires IsRunning(st, id) && s.SkippedOversize?
    ensures var next := Propagate(p, st[id := s]);
            && RunningIds(next) == RunningIds(st) - {id} && RefusedIds(next) == RefusedIds(st)
            && ExecutedIds(next) == ExecutedIds(st) && PendingIds(next) <= PendingIds(st)
  {
    PropagateGrows(p, st[id := s]);
    PropagatePending(p, st[id := s]);
    PropagateSets(p, st[id := s]);
  }

  lemma RefuseSets(st: RunStates, id: string, s: NodeState)
    requires IsRunning(st, id) && s.NotDispatched?
    ensures var next := st[id := s];
            && RunningIds(next) == RunningIds(st) - {id}
            && ExecutedIds(next) == ExecutedIds(st) && PendingIds(next) == PendingIds(st)
  {
  }

  lemma MarkSets(st: RunStates, s: NodeState)
    requires s.NotDispatched?
    ensures var next := MarkPending(st, s);
            && RunningIds(next) == RunningIds(st) && ExecutedIds(next) == ExecutedIds(st) && PendingIds(next) == {}
            && Grows(st, next) && RefusedIds(st) <= RefusedIds(next)
  {
  }

  lemma StartSets(p: Plan, st: RunStates, ids: seq<string>)
    requires forall id :: id in ids ==> id in ReadyIds(p, st)
    ensures var next := Start(st, ids);
            && RunningIds(next) == RunningIds(st) + Elements(ids) && PendingIds(next) == PendingIds(st) - Elements(ids)
            && RefusedIds(next) == RefusedIds(st) && ExecutedIds(next) == ExecutedIds(st)
  {
  }

  lemma BatchSets(p: Plan, st: RunStates)
    requires Settled(p, st)
    ensures var next := Apply(p, st, NextBatch);
            && RunningIds(next) == RunningIds(st) + Elements(BatchIds(p, st)) && PendingIds(next) <= PendingIds(st)
            && RefusedIds(next) == RefusedIds(st) && ExecutedIds(next) == ExecutedIds(st)
            && (BatchIds(p, st) != [] ==> |PendingIds(next)| < |PendingIds(st)|)
    ensures forall id :: id in BatchIds(p, st) ==> id in PendingIds(st) && id !in RunningIds(st)
  {
    var ids := BatchIds(p, st);
    BatchMembers(p, st);
    StartSets(p, st, ids);
    if ids != [] {
      assert ids[0] in ids && ids[0] in PendingIds(st);
      SubsetSize(PendingIds(st) - Elements(ids), PendingIds(st) - {ids[0]});
    }
  }

  /** With nothing running or refused, a settled state with pending nodes has a ready one. */
  lemma {:induction false} ReadyBelow(p: Plan, st: RunStates, id: string) returns (ready: string)
    requires PlanOk(p) && Covers(p, st) && Settled(p, st) && RunningIds(st) == {} && RefusedIds(st) == {}
    requires id in st && st[id].Pending?
    ensures ready in ReadyIds(p, st)
    decreases RankOf(p.deps)[id]
  {
    if d :| d in p.deps[id] && d in st && st[d].Pending? {
      ready := ReadyBelow(p, st, d);
    } else {
      ready := id;
      BlockingAmongMembers(st, p.deps[id]);
      assert !Blockable(p, st, id);
      forall d | d in p.deps[id] ensures d in st && st[d].Succeeded? {
        assert d in st && d !in RunningIds(st) && d !in RefusedIds(st);
      }
    }
  }

  /** The empty-batch error is out of reach unless something was left over from before the run. */
  lemma EmptyBatchMeansLeftOver(p: Plan, start: RunStates, st: RunStates)
    requires PlanOk(p) && Covers(p, st) && st.Keys == start.Keys && Settled(p, st)
    requires RunningIds(st) == RunningIds(start) && RefusedIds(st) == RefusedIds(start)
    requires BatchIds(p, st) == [] && !AllTerminal(st)
    ensures LeftOver(start)
  {
    if id :| id in RunningIds(st) {
      assert id in RunningIds(start);
    } else if id :| id in RefusedIds(st) {
      assert id in RefusedIds(start);
    } else {
      var id :| id in st && !st[id].Terminal();
      assert id !in RunningIds(st);
      assert |Ascend(ReadyIds(p, st))| == 0;
      var ready := ReadyBelow(p, st, id);
    }
  }

  // ---------------------------------------------------------------- admission

  const OVERSIZE_REASON := "oversize"
  const BUDGET_REASON := "over budget"

  function SkipOp(estimate: Estimator, policy: OversizePolicy, limit: u64, d: Dispatch): Op {
    RecordSkippedOversize(d.nodeId, OVERSIZE_REASON, estimate(d).bytes, limit)
  }

  /** The state once a stretch of dispatches is admitted: the oversize ones are skipped, the others stay running. */
  function AfterAdmission(p: Plan, st: RunStates, estimate: Estimator, policy: OversizePolicy, limit: u64, batch: seq<Dispatch>): RunStates {
    if batch == [] then st
    else
      var last := batch[|batch| - 1];
      var mid := AfterAdmission(p, st, estimate, policy, limit, batch[..|batch| - 1]);
      if Oversize(estimate, policy, limit, last) then Apply(p, mid, SkipOp(estimate, policy, limit, last)) else mid
  }

  /** The state once a stretch of dispatches is refused. */
  function AfterRefusal(p: Plan, st: RunStates, batch: seq<Dispatch>, reason: string): RunStates {
    if batch == [] then st
    else Apply(p, AfterRefusal(p, st, batch[..|batch| - 1], reason), RecordNotDispatched(batch[|batch| - 1].nodeId, reason))
  }

  /** A stop at dispatch `n`: the first `n` are admitted, the rest of the batch and everything pending is refused. */
  function AfterStop(p: Plan, st: RunStates, estimate: Estimator, policy: OversizePolicy, limit: u64, batch: seq<Dispatch>, n: nat): RunStates
    requires n < |batch|
  {
    var reason := BUDGET_REASON;
    var admitted := AfterAdmission(p, st, estimate, policy, limit, batch[..n]);
    Apply(p, AfterRefusal(p, admitted, batch[n..], reason), MarkPendingNotDispatched(reason))
  }

  lemma IdsLast(batch: seq<Dispatch>)
    requires batch != [] && Ascending(DispatchIds(batch))
    ensures var init, last := batch[..|batch| - 1], batch[|batch| - 1];
            && IdSet(batch) == IdSet(init) + {last.nodeId} && last.nodeId !in IdSet(init)
            && Ascending(DispatchIds(init)) && batch == init + [last]
  {
    var init, last := batch[..|batch| - 1], batch[|batch| - 1];
    assert batch == init + [last];
    forall d | d in init ensures d.nodeId != last.nodeId {
      var i :| 0 <= i < |init| && init[i] == d;
      AscendingDistinct(DispatchIds(batch), i, |batch| - 1);
    }
    assert DispatchIds(init) == DispatchIds(batch)[..|batch| - 1];
  }

  lemma {:induction false} AdmittedWithin(estimate: Estimator, policy: OversizePolicy, limit: u64, batch: seq<Dispatch>)
    ensures forall d :: d in Admitted(estimate, policy, limit, batch) <==> d in batch && !Oversize(estimate, policy, limit, d)
  {
    if batch != [] {
      AdmittedWithin(estimate, policy, limit, batch[..|batch| - 1]);
      assert batch == batch[..|batch| - 1] + [batch[|batch| - 1]];
    }
  }

  /** Nothing but refusals happened between two states. */
  ghost predicate OnlyRefusals(before: RunStates, after: RunStates) {
    Grows(before, after) && ExecutedIds(after) == ExecutedIds(before) && PendingIds(after) <= PendingIds(before)
  }

  /** Admission takes exactly the oversize dispatches out of the running nodes. */
  lemma {:induction false} AdmissionSets(p: Plan, st: RunStates, estimate: Estimator, policy: OversizePolicy, limit: u64, batch: seq<Dispatch>)
    requires Ascending(DispatchIds(batch)) && IdSet(batch) <= RunningIds(st)
    ensures var next := AfterAdmission(p, st, estimate, policy, limit, batch);
            && RunningIds(next) == (RunningIds(st) - IdSet(batch)) + IdSet(Admitted(estimate, policy, limit, batch))
            && RefusedIds(next) == RefusedIds(st) && OnlyRefusals(st, next)
  {
    if batch != [] {
      var init, last := batch[..|batch| - 1], batch[|batch| - 1];
      IdsLast(batch);
      AdmissionSets(p, st, estimate, policy, limit, init);
      AdmittedWithin(estimate, policy, limit, init);
      var mid := AfterAdmission(p, st, estimate, policy, limit, init);
      assert last.nodeId in RunningIds(mid);
      var op := SkipOp(estimate, policy, limit, last);
      SkipSets(p, mid, last.nodeId, Oversized(op.reason, op.actualBytes, op.byteLimit));
      PropagateGrows(p, mid[last.nodeId := Oversized(op.reason, op.actualBytes, op.byteLimit)]);
      var taken := Admitted(estimate, policy, limit, init);
      assert IdSet(taken + [last]) == IdSet(taken) + {last.nodeId};
    }
  }

  lemma {:induction false} RefusalSets(p: Plan, st: RunStates, batch: seq<Dispatch>, reason: string)
    requires Ascending(DispatchIds(batch)) && IdSet(batch) <= RunningIds(st)
    ensures var next := AfterRefusal(p, st, batch, reason);
            && RunningIds(next) == RunningIds(st) - IdSet(batch) && RefusedIds(next) == RefusedIds(st) + IdSet(batch)
            && OnlyRefusals(st, next)
  {
    if batch != [] {
      var init, last := batch[..|batch| - 1], batch[|batch| - 1];
      IdsLast(batch);
      RefusalSets(p, st, init, reason);
      var mid := AfterRefusal(p, st, init, reason);
      assert last.nodeId in RunningIds(mid);
      RefuseSets(mid, last.nodeId, Refused(reason));
    }
  }

  lemma SplitIds(batch: seq<Dispatch>, n: nat)
    requires n <= |batch| && Ascending(DispatchIds(batch))
    ensures Ascending(DispatchIds(batch[..n])) && Ascending(DispatchIds(batch[n..]))
    ensures IdSet(batch) == IdSet(batch[..n]) + IdSet(batch[n..]) && IdSet(batch[..n]) !! IdSet(batch[n..])
  {
    assert batch == batch[..n] + batch[n..];
    assert DispatchIds(batch[..n]) == DispatchIds(batch)[..n] && DispatchIds(batch[n..]) == DispatchIds(batch)[n..];
    forall a, b | a in batch[..n] && b in batch[n..] ensures a.nodeId != b.nodeId {
      var i :| 0 <= i < n && batch[..n][i] == a;
      var j :| 0 <= j < |batch| - n && batch[n..][j] == b;
      AscendingDistinct(DispatchIds(batch), i, n + j);
    }
  }

  lemma TakenWithin(estimate: Estimator, policy: OversizePolicy, limit: u64, batch: seq<Dispatch>)
    ensures IdSet(Admitted(estimate, policy, limit, batch)) <= IdSet(batch)
  {
    AdmittedWithin(estimate, policy, limit, batch);
  }

  lemma RemoveBoth(whole: set<string>, a: set<string>, b: set<string>, taken: set<string>)
    requires a + b <= whole && a !! b && taken <= a
    ensures b <= (whole - a) + taken && ((whole - a) + taken) - b == (whole - (a + b)) + taken
  {
  }

  /** After a stop the batch leaves running exactly what it had accepted, and nothing is pending. */
  lemma StopSets(p: Plan, st: RunStates, estimate: Estimator, policy: OversizePolicy, limit: u64, batch: seq<Dispatch>, n: nat)
    requires n < |batch| && Ascending(DispatchIds(batch)) && IdSet(batch) <= RunningIds(st)
    ensures var next := AfterStop(p, st, estimate, policy, limit, batch, n);
            && RunningIds(next) == (RunningIds(st) - IdSet(batch)) + IdSet(Admitted(estimate, policy, limit, batch[..n]))
            && PendingIds(next) == {} && batch[n].nodeId in RefusedIds(next) && OnlyRefusals(st, next)
  {
    var reason := BUDGET_REASON;
    var admitted := AfterAdmission(p, st, estimate, policy, limit, batch[..n]);
    var rest, taken := batch[n..], Admitted(estimate, policy, limit, batch[..n]);
    SplitIds(batch, n);
    AdmissionSets(p, st, estimate, policy, limit, batch[..n]);
    TakenWithin(estimate, policy, limit, batch[..n]);
    RemoveBoth(RunningIds(st), IdSet(batch[..n]), IdSet(rest), IdSet(taken));
    RefusalSets(p, admitted, rest, reason);
    assert rest[0] == batch[n] && rest[0] in rest;
    MarkSets(AfterRefusal(p, admitted, rest, reason), Refused(reason));
  }

  lemma KeptSkip(p: Plan, exec: Executor, start: RunStates, st: RunStates, op: Op)
    requires PlanOk(p) && Covers(p, start) && Kept(p, exec, start, st) && op.RecordSkippedOversize?
    ensures Kept(p, exec, start, Apply(p, st, op))
  {
    if IsRunning(st, op.id) {
      SkipSets(p, st, op.id, Oversized(op.reason, op.actualBytes, op.byteLimit));
    }
    KeptStep(p, exec, start, st, op);
  }

  lemma KeptRefuse(p: Plan, exec: Executor, start: RunStates, st: RunStates, op: Op)
    requires PlanOk(p) && Covers(p, start) && Kept(p, exec, start, st) && op.RecordNotDispatched?
    ensures Kept(p, exec, start, Apply(p, st, op))
  {
    if IsRunning(st, op.id) {
      RefuseSets(st, op.id, Refused(op.reason));
    }
    KeptStep(p, exec, start, st, op);
  }

  lemma KeptMark(p: Plan, exec: Executor, start: RunStates, st: RunStates, op: Op)
    requires PlanOk(p) && Covers(p, start) && Kept(p, exec, start, st) && op.MarkPendingNotDispatched?
    ensures Kept(p, exec, start, Apply(p, st, op))
  {
    MarkSets(st, Refused(op.reason));
    KeptStep(p, exec, start, st, op);
  }

  lemma {:induction false} AdmissionKept(p: Plan, exec: Executor, start: RunStates, st: RunStates,
                                         estimate: Estimator, policy: OversizePolicy, limit: u64, batch: seq<Dispatch>)
    requires PlanOk(p) && Covers(p, start) && Kept(p, exec, start, st)
    ensures Kept(p, exec, start, AfterAdmission(p, st, estimate, policy, limit, batch))
  {
    if batch != [] {
      var init, last := batch[..|batch| - 1], batch[|batch| - 1];
      AdmissionKept(p, exec, start, st, estimate, policy, limit, init);
      if Oversize(estimate, policy, limit, last) {
        KeptSkip(p, exec, start, AfterAdmission(p, st, estimate, policy, limit, init), SkipOp(estimate, policy, limit, last));
      }
    }
  }

  lemma {:induction false} RefusalKept(p: Plan, exec: Executor, start: RunStates, st: RunStates, batch: seq<Dispatch>, reason: string)
    requires PlanOk(p) && Covers(p, start) && Kept(p, exec, start, st)
    ensures Kept(p, exec, start, AfterRefusal(p, st, batch, reason))
  {
    if batch != [] {
      var init, last := batch[..|batch| - 1], batch[|batch| - 1];
      RefusalKept(p, exec, start, st, init, reason);
      KeptRefuse(p, exec, start, AfterRefusal(p, st, init, reason), RecordNotDispatched(last.nodeId, reason));
    }
  }

  lemma StopKept(p: Plan, exec: Executor, start: RunStates, st: RunStates,
                 estimate: Estimator, policy: OversizePolicy, limit: u64, batch: seq<Dispatch>, n: nat)
    requires PlanOk(p) && Covers(p, start) && Kept(p, exec, start, st) && n < |batch|
    ensures Kept(p, exec, start, AfterStop(p, st, estimate, policy, limit, batch, n))
  {
    var reason := BUDGET_REASON;
    AdmissionKept(p, exec, start, st, estimate, policy, limit, batch[..n]);
    var admitted := AfterAdmission(p, st, estimate, policy, limit, batch[..n]);
    RefusalKept(p, exec, start, admitted, batch[n..], reason);
    KeptMark(p, exec, start, AfterRefusal(p, admitted, batch[n..], reason), MarkPendingNotDispatched(reason));
  }

  // ---------------------------------------------------------------- execution

  /** The state once the executor's answers to a stretch of dispatches are recorded. */
  function AfterResults(p: Plan, st: RunStates, exec: Executor, accepted: seq<Dispatch>): RunStates {
    if accepted == [] then st
    else
      var last := accepted[|accepted| - 1];
      Apply(p, AfterResults(p, st, exec, accepted[..|accepted| - 1]), Record(last.nodeId, exec(last)))
  }

  ghost predicate Settles(p: Plan, exec: Executor, accepted: seq<Dispatch>) {
    forall d :: d in accepted ==> Settle(p.spec.snapshotIdentity, exec(d)).Some?
  }

  lemma RecordSets(p: Plan, st: RunStates, id: string, outcome: NodeOutcome)
    requires IsRunning(st, id) && Settle(p.spec.snapshotIdentity, outcome).Some?
    ensures var next := Apply(p, st, Record(id, outcome));
            && RefusedIds(next) == RefusedIds(st) && ExecutedIds(next) == ExecutedIds(st) + {id}
  {
    SettleSound(p.spec.snapshotIdentity, outcome);
    var s := Settle(p.spec.snapshotIdentity, outcome).value;
    PropagateSets(p, st[id := s]);
  }

  /** Recording moves exactly the accepted nodes from running to executed. */
  lemma {:induction false} ResultSets(p: Plan, st: RunStates, exec: Executor, accepted: seq<Dispatch>)
    requires Ascending(DispatchIds(accepted)) && IdSet(accepted) <= RunningIds(st) && Settles(p, exec, accepted)
    ensures var next := AfterResults(p, st, exec, accepted);
            && RunningIds(next) == RunningIds(st) - IdSet(accepted) && RefusedIds(next) == RefusedIds(st)
            && ExecutedIds(next) == ExecutedIds(st) + IdSet(accepted)
            && Grows(st, next) && PendingIds(next) <= PendingIds(st)
  {
    if accepted != [] {
      var init, last := accepted[..|accepted| - 1], accepted[|accepted| - 1];
      IdsLast(accepted);
      ResultSets(p, st, exec, init);
      var mid := AfterResults(p, st, exec, init);
      assert last.nodeId in RunningIds(mid) && last in accepted;
      RecordCounts(p, mid, last.nodeId, exec(last));
      RecordSets(p, mid, last.nodeId, exec(last));
    }
  }

  /** Dispatches whose nodes are running on the inputs they name, and had not started before this run. */
  ghost predicate OutWith(p: Plan, start: RunStates, st: RunStates, accepted: seq<Dispatch>) {
    forall d :: d in accepted ==>
      && IsRunning(st, d.nodeId) && d.nodeId in start && start[d.nodeId].Pending?
      && d.nodeId in p.nodes && d.nodeId in p.deps && d == DispatchFor(p, st, d.nodeId)
  }

  lemma OutWithSets(p: Plan, start: RunStates, st: RunStates, accepted: seq<Dispatch>)
    requires OutWith(p, start, st, accepted)
    ensures IdSet(accepted) <= RunningIds(st)
  {
  }

  lemma {:induction false} ResultsKept(p: Plan, exec: Executor, start: RunStates, st: RunStates, accepted: seq<Dispatch>)
    requires PlanOk(p) && Covers(p, start) && Kept(p, exec, start, st)
    requires Ascending(DispatchIds(accepted)) && OutWith(p, start, st, accepted) && Settles(p, exec, accepted)
    ensures Kept(p, exec, start, AfterResults(p, st, exec, accepted))
  {
    if accepted != [] {
      var init, last := accepted[..|accepted| - 1], accepted[|accepted| - 1];
      IdsLast(accepted);
      ResultsKept(p, exec, start, st, init);
      OutWithSets(p, start, st, accepted);
      ResultSets(p, st, exec, init);
      var mid := AfterResults(p, st, exec, init);
      assert last in accepted && last.nodeId in RunningIds(mid);
      RunningDispatch(p, st, mid, last.nodeId);
      KeptRecord(p, exec, start, mid, last);
    }
  }

  lemma KeptRecord(p: Plan, exec: Executor, start: RunStates, st: RunStates, d: Dispatch)
    requires PlanOk(p) && Covers(p, start) && Kept(p, exec, start, st)
    requires IsRunning(st, d.nodeId) && start[d.nodeId].Pending? && d == DispatchFor(p, st, d.nodeId)
    requires Settle(p.spec.snapshotIdentity, exec(d)).Some?
    ensures Kept(p, exec, start, Apply(p, st, Record(d.nodeId, exec(d))))
  {
    var op := Record(d.nodeId, exec(d));
    ApplyInv(p, st, op);
    ApplySettled(p, st, op);
    FaithfulApply(p, exec, start, st, op);
    RecordCounts(p, st, d.nodeId, exec(d));
  }

  // ---------------------------------------------------------------- accounts

  /** What this run executed: each node once, on exactly the inputs its dispatch named. */
  ghost predicate Ledger(p: Plan, start: RunStates, st: RunStates, order: seq<Dispatch>) {
    && ExecutedIds(st) == ExecutedIds(start) + IdSet(order)
    && |ExecutedIds(st)| == |ExecutedIds(start)| + |order|
    && forall d :: d in order ==> LedgerEntry(p, st, d)
  }

  ghost predicate LedgerEntry(p: Plan, st: RunStates, d: Dispatch) {
    d.nodeId in ExecutedIds(st) && d.nodeId in p.nodes && d.nodeId in p.deps && d == DispatchFor(p, st, d.nodeId)
  }

  lemma LedgerGrows(p: Plan, before: RunStates, after: RunStates, d: Dispatch)
    requires Inv(p, before) && Grows(before, after) && LedgerEntry(p, before, d)
    ensures LedgerEntry(p, after, d)
  {
    assert NodeOk(p, before, d.nodeId);
    DispatchStable(p, before, after, d.nodeId);
  }

  lemma {:induction false} IdCount(batch: seq<Dispatch>)
    requires Ascending(DispatchIds(batch))
    ensures |IdSet(batch)| == |batch|
  {
    if batch != [] {
      IdsLast(batch);
      IdCount(batch[..|batch| - 1]);
    }
  }

  /** The byte account of an exact run: the estimates of what was executed, within the limit. */
  ghost predicate Paid(exact: bool, limit: u64, atStart: u64, consumed: u64, estimate: Estimator, order: seq<Dispatch>) {
    exact && atStart <= limit ==> consumed == atStart + Charged(estimate, order) && consumed <= limit
  }

  function Total(seconds: seq<nat>): nat {
    if seconds == [] then 0 else Total(seconds[..|seconds| - 1]) + seconds[|seconds| - 1]
  }

  /** One number of seconds per dispatch: what its execution took, but never less than one. */
  ghost predicate Ticks(elapsed: string -> u64, order: seq<Dispatch>, seconds: seq<nat>) {
    && |seconds| == |order|
    && forall i :: 0 <= i < |order| ==>
         && seconds[i] >= 1 && seconds[i] >= elapsed(order[i].nodeId)
         && (seconds[i] == 1 || seconds[i] == elapsed(order[i].nodeId))
  }

  /** The time account of a run: each execution is charged its seconds, modulo the word. */
  ghost predicate Clocked(elapsed: string -> u64, atStart: u64, consumed: u64, order: seq<Dispatch>) {
    exists seconds :: Ticks(elapsed, order, seconds) && Wraps(atStart + Total(seconds), consumed)
  }

  /** A word holds a number modulo its size. */
  predicate Wraps(n: nat, word: u64) {
    word == n % U64
  }

  lemma {:induction false} TotalConcat(a: seq<nat>, b: seq<nat>)
    ensures Total(a + b) == Total(a) + Total(b)
    decreases |b|
  {
    if b == [] {
      assert a + b == a;
    } else {
      TotalConcat(a, b[..|b| - 1]);
      assert (a + b)[..|a + b| - 1] == a + b[..|b| - 1];
    }
  }

  lemma ClockedNone(elapsed: string -> u64, consumed: u64)
    ensures Clocked(elapsed, consumed, consumed, [])
  {
    assert Ticks(elapsed, [], []) && Total([]) == 0;
  }

  lemma ClockedConcat(elapsed: string -> u64, a: u64, b: u64, c: u64, first: seq<Dispatch>, rest: seq<Dispatch>)
    requires Clocked(elapsed, a, b, first) && Clocked(elapsed, b, c, rest)
    ensures Clocked(elapsed, a, c, first + rest)
  {
    hide *;
    var s := ClockSeconds(elapsed, a, b, first);
    var t := ClockSeconds(elapsed, b, c, rest);
    TicksConcat(elapsed, first, rest, s, t);
    TotalConcat(s, t);
    WrapChain(a, b, c, Total(s), Total(t), Total(s + t));
    ClockedBy(elapsed, a, c, first + rest, s + t);
  }

  lemma ClockSeconds(elapsed: string -> u64, atStart: u64, consumed: u64, order: seq<Dispatch>) returns (seconds: seq<nat>)
    requires Clocked(elapsed, atStart, consumed, order)
    ensures Ticks(elapsed, order, seconds) && Wraps(atStart + Total(seconds), consumed)
  {
    hide Ticks, Wraps, Total;
    seconds :| Ticks(elapsed, order, seconds) && Wraps(atStart + Total(seconds), consumed);
  }

  lemma ClockedBy(elapsed: string -> u64, atStart: u64, consumed: u64, order: seq<Dispatch>, seconds: seq<nat>)
    requires Ticks(elapsed, order, seconds) && Wraps(atStart + Total(seconds), consumed)
    ensures Clocked(elapsed, atStart, consumed, order)
  {
    hide Ticks, Wraps, Total;
  }

  lemma WrapChain(a: u64, b: u64, c: u64, x: nat, y: nat, both: nat)
    requires Wraps(a + x, b) && Wraps(b + y, c) && both == x + y
    ensures Wraps(a + both, c)
  {
    WrapTwice(a + x, y);
    assert a + x + y == a + both;
  }

  lemma TicksConcat(elapsed: string -> u64, first: seq<Dispatch>, rest: seq<Dispatch>, s: seq<nat>, t: seq<nat>)
    requires Ticks(elapsed, first, s) && Ticks(elapsed, rest, t)
    ensures Ticks(elapsed, first + rest, s + t)
  {
  }

  lemma WrapTwice(a: nat, b: nat)
    ensures (a % U64 + b) % U64 == (a + b) % U64
  {
    var q := a / U64;
    assert a + b == q * U64 + (a % U64 + b);
  }

  lemma ClockedNext(elapsed: string -> u64, atStart: u64, consumed: u64, accepted: seq<Dispatch>, k: nat)
    requires k < |accepted| && Clocked(elapsed, atStart, consumed, accepted[..k])
    ensures Clocked(elapsed, atStart, WrapAdd(consumed, ElapsedSeconds(elapsed, accepted[k].nodeId)), accepted[..k + 1])
  {
    var d, second := accepted[k], ElapsedSeconds(elapsed, accepted[k].nodeId);
    assert Ticks(elapsed, [d], [second]) && Total([second]) == second by {
      assert [second][..0] == [];
    }
    assert accepted[..k + 1] == accepted[..k] + [d];
    ClockedConcat(elapsed, atStart, consumed, WrapAdd(consumed, second), accepted[..k], [d]);
  }

  /** What the executions themselves took. */
  function Took(elapsed: string -> u64, order: seq<Dispatch>): nat {
    if order == [] then 0 else Took(elapsed, order[..|order| - 1]) + elapsed(order[|order| - 1].nodeId)
  }

  lemma {:induction false} TicksBound(elapsed: string -> u64, order: seq<Dispatch>, seconds: seq<nat>)
    requires Ticks(elapsed, order, seconds)
    ensures Total(seconds) >= |order| && Took(elapsed, order) <= Total(seconds) <= Took(elapsed, order) + |order|
    decreases |order|
  {
    if order != [] {
      var n := |order| - 1;
      assert order[..n][..] == order[..n] && forall i :: 0 <= i < n ==> order[..n][i] == order[i] && seconds[..n][i] == seconds[i];
      TicksBound(elapsed, order[..n], seconds[..n]);
    }
  }

  /** Unless the word overflows, a run is charged at least one second an execution, at least what the executions took, and at
      most a second more for each; so a run that took more than its limit has exceeded it. */
  lemma ClockCharges(elapsed: string -> u64, budget: Budget, atStart: u64, order: seq<Dispatch>)
    requires Clocked(elapsed, atStart, budget.wallClockConsumed, order) && atStart + Took(elapsed, order) + |order| < U64
    ensures budget.wallClockConsumed >= atStart + |order|
    ensures atStart + Took(elapsed, order) <= budget.wallClockConsumed <= atStart + Took(elapsed, order) + |order|
    ensures atStart + Took(elapsed, order) > budget.wallClockLimit ==> budget.Exceeded()
  {
    var seconds :| Ticks(elapsed, order, seconds) && Wraps(atStart + Total(seconds), budget.wallClockConsumed);
    hide Ticks, Total, Took;
    TicksBound(elapsed, order, seconds);
    NoWrap(atStart + Total(seconds));
  }

  lemma NoWrap(n: nat)
    ensures n < U64 ==> n % U64 == n
  {
  }

  // ---------------------------------------------------------------- the loop

  /** Refuses the rest of a batch from the dispatch the budget stopped at, and everything still pending. */
  method StopBatch(c: Coordinator, rest: seq<Dispatch>, reason: string)
    requires c.Valid() && Ascending(DispatchIds(rest)) && IdSet(rest) <= RunningIds(c.states)
    modifies c`states
    ensures c.Valid()
    ensures c.states == Apply(c.plan, AfterRefusal(c.plan, old(c.states), rest, reason), MarkPendingNotDispatched(reason))
  {
    ghost var before := c.states;
    for j := 0 to |rest|
      invariant c.Valid() && c.states == AfterRefusal(c.plan, before, rest[..j], reason)
    {
      RefusalNext(c.plan, before, rest, j, reason);
      var refused := c.RecordNotDispatched(rest[j].nodeId, reason);
      assert refused.Ok?;
    }
    assert rest[..|rest|] == rest;
    c.MarkPendingNotDispatched(reason);
  }

  lemma RefusalNext(p: Plan, st: RunStates, batch: seq<Dispatch>, k: nat, reason: string)
    requires k < |batch| && Ascending(DispatchIds(batch)) && IdSet(batch) <= RunningIds(st)
    ensures var mid := AfterRefusal(p, st, batch[..k], reason);
            && IsRunning(mid, batch[k].nodeId)
            && AfterRefusal(p, st, batch[..k + 1], reason) == Apply(p, mid, RecordNotDispatched(batch[k].nodeId, reason))
  {
    assert batch[..k + 1][..k] == batch[..k];
    SplitIds(batch, k);
    RefusalSets(p, st, batch[..k], reason);
    assert batch[k..][0] in batch[k..];
    assert batch[k].nodeId in RunningIds(AfterRefusal(p, st, batch[..k], reason));
  }

  /** The first `k` dispatches of a batch are through admission. */
  ghost predicate AdmittedUpTo(p: Plan, before: RunStates, st: RunStates, estimate: Estimator, policy: OversizePolicy, limit: u64,
                               batch: seq<Dispatch>, k: nat, accepted: seq<Dispatch>)
  {
    && k <= |batch| && st == AfterAdmission(p, before, estimate, policy, limit, batch[..k])
    && accepted == Admitted(estimate, policy, limit, batch[..k])
  }

  lemma AdmissionNext(p: Plan, before: RunStates, st: RunStates, estimate: Estimator, policy: OversizePolicy, limit: u64,
                      batch: seq<Dispatch>, k: nat, accepted: seq<Dispatch>)
    requires k < |batch| && Ascending(DispatchIds(batch)) && IdSet(batch) <= RunningIds(before)
    requires AdmittedUpTo(p, before, st, estimate, policy, limit, batch, k, accepted)
    ensures IdSet(batch[k..]) <= RunningIds(st) && IsRunning(st, batch[k].nodeId) && Ascending(DispatchIds(batch[k..]))
    ensures accepted == Admitted(estimate, policy, limit, batch[..k])
    ensures Oversize(estimate, policy, limit, batch[k]) ==>
              AdmittedUpTo(p, before, Apply(p, st, SkipOp(estimate, policy, limit, batch[k])), estimate, policy, limit, batch, k + 1, accepted)
    ensures !Oversize(estimate, policy, limit, batch[k]) ==>
              AdmittedUpTo(p, before, st, estimate, policy, limit, batch, k + 1, accepted + [batch[k]])
  {
    assert batch[..k + 1][..k] == batch[..k];
    SplitIds(batch, k);
    AdmissionSets(p, before, estimate, policy, limit, batch[..k]);
    assert batch[k..][0] in batch[k..];
    assert batch[k].nodeId in RunningIds(st);
  }

  /** The run stopped at dispatch `n` of the batch. */
  ghost predicate StoppedAt(p: Plan, before: RunStates, final: RunStates, estimate: Estimator, policy: OversizePolicy, limit: u64,
                            batch: seq<Dispatch>, n: nat, id: string)
  {
    n < |batch| && final == AfterStop(p, before, estimate, policy, limit, batch, n) && id == batch[n].nodeId
  }

  lemma StopNext(p: Plan, before: RunStates, st: RunStates, final: RunStates, estimate: Estimator, policy: OversizePolicy, limit: u64,
                 batch: seq<Dispatch>, k: nat, accepted: seq<Dispatch>)
    requires k < |batch| && AdmittedUpTo(p, before, st, estimate, policy, limit, batch, k, accepted)
    requires var reason := BUDGET_REASON;
             final == Apply(p, AfterRefusal(p, st, batch[k..], reason), MarkPendingNotDispatched(reason))
    ensures StoppedAt(p, before, final, estimate, policy, limit, batch, k, batch[k].nodeId)
  {
  }

  lemma ChargedOne(estimate: Estimator, dispatches: seq<Dispatch>, d: Dispatch)
    ensures Charged(estimate, dispatches + [d]) == Charged(estimate, dispatches) + estimate(d).bytes
  {
    assert (dispatches + [d])[..|dispatches|] == dispatches;
  }

  /** Charging a dispatch that passed both tests. */
  lemma PaidAccept(policy: OversizePolicy, exact: bool, limit: u64, atStart: u64, consumed: u64,
                   estimate: Estimator, accepted: seq<Dispatch>, d: Dispatch)
    requires policy.Valid() && (exact ==> GuardExact(policy, limit))
    requires Paid(exact, limit, atStart, consumed, estimate, accepted)
    requires !Oversize(estimate, policy, limit, d) && WrapAdd(consumed, estimate(d).bytes) <= limit
    ensures Paid(exact, limit, atStart, WrapAdd(consumed, estimate(d).bytes), estimate, accepted + [d])
  {
    if exact && atStart <= limit {
      ByteTestExactIff(policy, limit);
      ChargedOne(estimate, accepted, d);
      assert consumed + estimate(d).bytes <= limit;
    }
  }

  /** Charging a dispatch whose whole batch is known to fit. */
  lemma PaidExecute(exact: bool, limit: u64, atStart: u64, consumed: u64, estimate: Estimator, accepted: seq<Dispatch>, k: nat)
    requires k < |accepted| && Paid(exact, limit, atStart, consumed, estimate, accepted[..k])
    requires Fits(exact, limit, atStart, estimate, accepted)
    ensures Paid(exact, limit, atStart, WrapAdd(consumed, estimate(accepted[k]).bytes), estimate, accepted[..k + 1])
  {
    ChargedPrefix(estimate, accepted, k);
  }

  ghost predicate Fits(exact: bool, limit: u64, consumed: u64, estimate: Estimator, accepted: seq<Dispatch>) {
    exact && consumed <= limit ==> consumed + Charged(estimate, accepted) <= limit
  }

  /** The account once some dispatches are charged their estimates. */
  function SpendAll(spent: Account, estimate: Estimator, dispatches: seq<Dispatch>): Account {
    if dispatches == [] then spent
    else Spend(SpendAll(spent, estimate, dispatches[..|dispatches| - 1]), estimate(dispatches[|dispatches| - 1]))
  }

  lemma SpendOne(spent: Account, estimate: Estimator, dispatches: seq<Dispatch>, d: Dispatch)
    ensures SpendAll(spent, estimate, dispatches + [d]) == Spend(SpendAll(spent, estimate, dispatches), estimate(d))
  {
    assert (dispatches + [d])[..|dispatches|] == dispatches;
  }

  /** Dispatch `k` of a batch is skipped as oversize, or fits what the accepted dispatches before it leave. */
  ghost predicate Passes(budget: Budget, spent: Account, estimate: Estimator, policy: OversizePolicy, batch: seq<Dispatch>, k: nat)
    requires k < |batch|
  {
    || Oversize(estimate, policy, budget.bytesLimit, batch[k])
    || budget.Affords(SpendAll(spent, estimate, Admitted(estimate, policy, budget.bytesLimit, batch[..k])), estimate(batch[k]))
  }

  /** Admission got through the first `n` dispatches, and stopped there because the next fails or the batch is over. */
  ghost predicate Turned(budget: Budget, spent: Account, estimate: Estimator, policy: OversizePolicy, batch: seq<Dispatch>,
                         n: nat, stopped: bool)
  {
    && n <= |batch| && (forall k :: 0 <= k < n ==> Passes(budget, spent, estimate, policy, batch, k))
    && (if stopped then n < |batch| && !Passes(budget, spent, estimate, policy, batch, n) else n == |batch|)
  }

  lemma PassesWhen(budget: Budget, spent: Account, estimate: Estimator, policy: OversizePolicy, batch: seq<Dispatch>, k: nat, accepted: seq<Dispatch>)
    requires k < |batch| && accepted == Admitted(estimate, policy, budget.bytesLimit, batch[..k])
    ensures Passes(budget, spent, estimate, policy, batch, k)
       <==> Oversize(estimate, policy, budget.bytesLimit, batch[k]) || budget.Affords(SpendAll(spent, estimate, accepted), estimate(batch[k]))
  {
  }

  /** Admission is through the first `k` dispatches: what that did to the states, to the account, and why. */
  ghost predicate Admitting(p: Plan, before: RunStates, st: RunStates, budget: Budget, spent: Account, account: Account,
                            estimate: Estimator, policy: OversizePolicy, exact: bool, batch: seq<Dispatch>, k: nat, accepted: seq<Dispatch>)
  {
    && AdmittedUpTo(p, before, st, estimate, policy, budget.bytesLimit, batch, k, accepted)
    && account == SpendAll(spent, estimate, accepted)
    && Paid(exact, budget.bytesLimit, spent.bytes, account.bytes, estimate, accepted)
    && forall j :: 0 <= j < k ==> Passes(budget, spent, estimate, policy, batch, j)
  }

  lemma AdmittingStarts(p: Plan, st: RunStates, budget: Budget, spent: Account, estimate: Estimator, policy: OversizePolicy,
                        exact: bool, batch: seq<Dispatch>)
    ensures Admitting(p, st, st, budget, spent, spent, estimate, policy, exact, batch, 0, [])
  {
  }

  lemma AdmittingNext(p: Plan, before: RunStates, st: RunStates, budget: Budget, spent: Account, account: Account,
                      estimate: Estimator, policy: OversizePolicy, exact: bool, batch: seq<Dispatch>, k: nat, accepted: seq<Dispatch>)
    requires k < |batch| && Ascending(DispatchIds(batch)) && IdSet(batch) <= RunningIds(before)
    requires policy.Valid() && (exact ==> GuardExact(policy, budget.bytesLimit))
    requires Admitting(p, before, st, budget, spent, account, estimate, policy, exact, batch, k, accepted)
    ensures IdSet(batch[k..]) <= RunningIds(st) && IsRunning(st, batch[k].nodeId) && Ascending(DispatchIds(batch[k..]))
    ensures var d, limit := batch[k], budget.bytesLimit;
            if Oversize(estimate, policy, limit, d) then
              Admitting(p, before, Apply(p, st, SkipOp(estimate, policy, limit, d)), budget, spent, account, estimate, policy, exact, batch, k + 1, accepted)
            else if budget.Affords(account, estimate(d)) then
              Admitting(p, before, st, budget, spent, Spend(account, estimate(d)), estimate, policy, exact, batch, k + 1, accepted + [d])
            else !Passes(budget, spent, estimate, policy, batch, k)
  {
    var d, limit := batch[k], budget.bytesLimit;
    AdmissionNext(p, before, st, estimate, policy, limit, batch, k, accepted);
    SpendOne(spent, estimate, accepted, d);
    PassesWhen(budget, spent, estimate, policy, batch, k, accepted);
    if !Oversize(estimate, policy, limit, d) && budget.Affords(account, estimate(d)) {
      PaidAccept(policy, exact, limit, spent.bytes, account.bytes, estimate, accepted, d);
    }
    hide SpendAll, Passes, AdmittedUpTo, Oversize, Paid, Apply, GuardExact;
  }

  lemma AdmittingStops(p: Plan, before: RunStates, st: RunStates, budget: Budget, spent: Account, account: Account, estimate: Estimator,
                       policy: OversizePolicy, exact: bool, batch: seq<Dispatch>, k: nat, accepted: seq<Dispatch>)
    requires Admitting(p, before, st, budget, spent, account, estimate, policy, exact, batch, k, accepted)
    ensures AdmittedUpTo(p, before, st, estimate, policy, budget.bytesLimit, batch, k, accepted)
    ensures Fits(exact, budget.bytesLimit, spent.bytes, estimate, accepted)
    ensures k == |batch| ==> Turned(budget, spent, estimate, policy, batch, k, false)
    ensures k < |batch| && !Passes(budget, spent, estimate, policy, batch, k) ==> Turned(budget, spent, estimate, policy, batch, k, true)
  {
    hide Passes, AdmittedUpTo;
  }

  predicate SameLimits(a: Budget, b: Budget) {
    a.wallClockLimit == b.wallClockLimit && a.bytesLimit == b.bytesLimit && a.estimable == b.estimable
  }

  /** Where admission stops is decided by the batch, the account and the estimates. */
  lemma TurnedOnce(budget: Budget, spent: Account, estimate: Estimator, policy: OversizePolicy, batch: seq<Dispatch>,
                   n: nat, stopped: bool, m: nat, other: bool)
    requires Turned(budget, spent, estimate, policy, batch, n, stopped) && Turned(budget, spent, estimate, policy, batch, m, other)
    ensures n == m && stopped == other
  {
    hide Passes;
  }

  /** What a batch accepts leaves the projected accounts within both limits. */
  lemma {:induction false} AcceptedWithinLimits(budget: Budget, spent: Account, estimate: Estimator, policy: OversizePolicy,
                                                batch: seq<Dispatch>, n: nat)
    requires n <= |batch| && forall k :: 0 <= k < n ==> Passes(budget, spent, estimate, policy, batch, k)
    ensures var accepted := Admitted(estimate, policy, budget.bytesLimit, batch[..n]);
            var projected := SpendAll(spent, estimate, accepted);
            accepted != [] ==> projected.wallClock <= budget.wallClockLimit && projected.bytes <= budget.bytesLimit
    decreases n
  {
    if n > 0 {
      AcceptedWithinLimits(budget, spent, estimate, policy, batch, n - 1);
      hide Admitted, SpendAll, Oversize, Passes;
      var before := Admitted(estimate, policy, budget.bytesLimit, batch[..n - 1]);
      AdmittedNext(estimate, policy, budget.bytesLimit, batch, n - 1);
      PassesWhen(budget, spent, estimate, policy, batch, n - 1, before);
      SpendOne(spent, estimate, before, batch[n - 1]);
      assert Passes(budget, spent, estimate, policy, batch, n - 1);
      if Oversize(estimate, policy, budget.bytesLimit, batch[n - 1]) {
        assert before + [] == before;
      }
    }
  }

  lemma AdmittedNext(estimate: Estimator, policy: OversizePolicy, limit: u64, batch: seq<Dispatch>, k: nat)
    requires k < |batch|
    ensures Admitted(estimate, policy, limit, batch[..k + 1])
         == Admitted(estimate, policy, limit, batch[..k]) + if Oversize(estimate, policy, limit, batch[k]) then [] else [batch[k]]
  {
    assert batch[..k + 1][..k] == batch[..k];
  }

  lemma EmptyWhen(dispatches: seq<Dispatch>)
    ensures (forall d :: d !in dispatches) ==> dispatches == []
  {
    assert dispatches != [] ==> dispatches[0] in dispatches;
  }

  /** A budget without estimates accepts nothing: it stops a batch at its first dispatch that is not oversize. */
  lemma InestimableAcceptsNone(budget: Budget, spent: Account, estimate: Estimator, policy: OversizePolicy, batch: seq<Dispatch>,
                               n: nat, stopped: bool)
    requires !budget.estimable && Turned(budget, spent, estimate, policy, batch, n, stopped)
    ensures Admitted(estimate, policy, budget.bytesLimit, batch[..n]) == []
    ensures stopped <==> exists d :: d in batch && !Oversize(estimate, policy, budget.bytesLimit, d)
  {
    AdmittedWithin(estimate, policy, budget.bytesLimit, batch[..n]);
    forall d | d in batch[..n] ensures Oversize(estimate, policy, budget.bytesLimit, d) {
      var k :| 0 <= k < n && batch[..n][k] == d;
      assert Passes(budget, spent, estimate, policy, batch, k);
    }
    EmptyWhen(Admitted(estimate, policy, budget.bytesLimit, batch[..n]));
    assert !stopped ==> batch[..n] == batch;
  }

  /** Oversize first, then the remaining budget; the first dispatch over budget stops the run. */
  method AdmitBatch(c: Coordinator, batch: seq<Dispatch>, budget: Budget, estimate: Estimator, policy: OversizePolicy, ghost exact: bool)
    returns (accepted: seq<Dispatch>, stoppedAt: Option<string>, ghost n: nat)
    requires c.Valid() && policy.Valid() && (exact ==> GuardExact(policy, budget.bytesLimit))
    requires Ascending(DispatchIds(batch)) && IdSet(batch) <= RunningIds(c.states)
    modifies c`states
    ensures c.Valid()
    ensures stoppedAt.None? ==> n == |batch|
    ensures stoppedAt.None? ==> AdmittedUpTo(c.plan, old(c.states), c.states, estimate, policy, budget.bytesLimit, batch, n, accepted)
    ensures stoppedAt.Some? ==> StoppedAt(c.plan, old(c.states), c.states, estimate, policy, budget.bytesLimit, batch, n, stoppedAt.value)
    ensures Fits(exact, budget.bytesLimit, budget.bytesConsumed, estimate, accepted)
    ensures Turned(budget, budget.Spent(), estimate, policy, batch, n, stoppedAt.Some?)
  {
    ghost var before, spent := c.states, budget.Spent();
    assert spent.bytes == budget.bytesConsumed;
    var projected := new Budget.Clone(budget);
    assert SameLimits(projected, budget);
    hide *;
    AdmittingStarts(c.plan, before, budget, spent, estimate, policy, exact, batch);
    accepted, stoppedAt, n := [], None, 0;
    for k := 0 to |batch|
      invariant c.Valid() && n == k && fresh(projected)
      invariant Admitting(c.plan, before, c.states, budget, spent, projected.Spent(), estimate, policy, exact, batch, k, accepted)
    {
      AdmittingNext(c.plan, before, c.states, budget, spent, projected.Spent(), estimate, policy, exact, batch, k, accepted);
      AdmittingStops(c.plan, before, c.states, budget, spent, projected.Spent(), estimate, policy, exact, batch, k, accepted);
      ghost var mid := c.states;
      var verdict := AdmitOne(c, batch[k], projected, budget, estimate, policy);
      if verdict.OverBudget? {
        StopBatch(c, batch[k..], BUDGET_REASON);
        StopNext(c.plan, before, mid, c.states, estimate, policy, budget.bytesLimit, batch, k, accepted);
        stoppedAt := Some(batch[k].nodeId);
        return;
      }
      if verdict.Accept? {
        accepted := accepted + [batch[k]];
      }
      n := k + 1;
    }
    AdmittingStops(c.plan, before, c.states, budget, spent, projected.Spent(), estimate, policy, exact, batch, n, accepted);
  }

  datatype Admission = TooLarge | OverBudget | Accept

  /** Decides one dispatch: skipped as oversize, over budget, or accepted and charged to the projection. */
  method AdmitOne(c: Coordinator, d: Dispatch, projected: Budget, ghost budget: Budget, estimate: Estimator, policy: OversizePolicy)
    returns (verdict: Admission)
    requires c.Valid() && IsRunning(c.states, d.nodeId) && SameLimits(projected, budget)
    modifies c`states, projected
    ensures c.Valid() && (verdict.TooLarge? <==> Oversize(estimate, policy, budget.bytesLimit, d))
    ensures c.states == if verdict.TooLarge? then Apply(c.plan, old(c.states), SkipOp(estimate, policy, budget.bytesLimit, d)) else old(c.states)
    ensures !verdict.TooLarge? ==> (verdict.Accept? <==> budget.Affords(old(projected.Spent()), estimate(d)))
    ensures projected.Spent() == if verdict.Accept? then Spend(old(projected.Spent()), estimate(d)) else old(projected.Spent())
  {
    var cost := estimate(d);
    if policy.Exceeds(cost.bytes, projected.bytesLimit) {
      var skipped := c.RecordSkippedOversize(d.nodeId, OVERSIZE_REASON, cost.bytes, projected.bytesLimit);
      assert skipped.Ok?;
      return TooLarge;
    }
    if !projected.EstimateOk(cost) {
      return OverBudget;
    }
    projected.Consume(cost.wallClockSecs, cost.bytes);
    verdict := Accept;
  }

  lemma ResultsNext(p: Plan, st: RunStates, exec: Executor, accepted: seq<Dispatch>, k: nat)
    requires k < |accepted| && Ascending(DispatchIds(accepted)) && IdSet(accepted) <= RunningIds(st)
    requires Settles(p, exec, accepted[..k])
    ensures var mid := AfterResults(p, st, exec, accepted[..k]);
            && IsRunning(mid, accepted[k].nodeId)
            && AfterResults(p, st, exec, accepted[..k + 1]) == Apply(p, mid, Record(accepted[k].nodeId, exec(accepted[k])))
  {
    assert accepted[..k + 1][..k] == accepted[..k];
    SplitIds(accepted, k);
    ResultSets(p, st, exec, accepted[..k]);
    assert accepted[k..][0] in accepted[k..];
    assert accepted[k].nodeId in RunningIds(AfterResults(p, st, exec, accepted[..k]));
  }

  lemma ChargedPrefix(estimate: Estimator, accepted: seq<Dispatch>, k: nat)
    requires k < |accepted|
    ensures Charged(estimate, accepted[..k + 1]) == Charged(estimate, accepted[..k]) + estimate(accepted[k]).bytes
    ensures Charged(estimate, accepted[..k + 1]) <= Charged(estimate, accepted)
  {
    assert accepted[..k + 1][..k] == accepted[..k];
    assert accepted == accepted[..k + 1] + accepted[k + 1..];
    ChargedConcat(estimate, accepted[..k + 1], accepted[k + 1..]);
  }

  /** The elapsed whole seconds of an execution, counted as one at least. */
  function ElapsedSeconds(elapsed: string -> u64, id: string): u64 {
    if elapsed(id) < 1 then 1 else elapsed(id)
  }

  /** The first answer the coordinator will not record. */
  ghost predicate ForeignAt(p: Plan, exec: Executor, accepted: seq<Dispatch>, k: nat) {
    && k < |accepted| && Settles(p, exec, accepted[..k])
    && Settle(p.spec.snapshotIdentity, exec(accepted[k])).None?
  }

  /** Executes what was accepted, records the answers in dispatch order, and charges elapsed time and estimated bytes. */
  method ExecuteAccepted(c: Coordinator, exec: Executor, accepted: seq<Dispatch>, budget: Budget, estimate: Estimator,
                         ghost exact: bool, elapsed: string -> u64)
    returns (r: Result<(), CoordinatorError>, ghost n: nat)
    requires c.Valid() && Ascending(DispatchIds(accepted)) && IdSet(accepted) <= RunningIds(c.states)
    requires Fits(exact, budget.bytesLimit, budget.bytesConsumed, estimate, accepted)
    modifies c`states, budget
    ensures c.Valid() && n <= |accepted| && c.states == AfterResults(c.plan, old(c.states), exec, accepted[..n])
    ensures r.Ok? ==> n == |accepted| && Settles(c.plan, exec, accepted)
    ensures r.Ok? ==> Paid(exact, budget.bytesLimit, old(budget.bytesConsumed), budget.bytesConsumed, estimate, accepted)
    ensures r.Ok? ==> Clocked(elapsed, old(budget.wallClockConsumed), budget.wallClockConsumed, accepted)
    ensures r.Err? ==> ForeignAt(c.plan, exec, accepted, n) && r.error == ForeignArtifact(accepted[n].nodeId)
  {
    ghost var before, paid, clock := c.states, budget.bytesConsumed, budget.wallClockConsumed;
    ClockedNone(elapsed, clock);
    hide Clocked, Paid, Fits;
    PaidNone(exact, budget.bytesLimit, paid, estimate, accepted);
    var outcomes := seq(|accepted|, i requires 0 <= i < |accepted| => exec(accepted[i]));
    n := 0;
    for k := 0 to |accepted|
      invariant n == k && c.Valid() && Settles(c.plan, exec, accepted[..k])
      invariant c.states == AfterResults(c.plan, before, exec, accepted[..k])
      invariant Paid(exact, budget.bytesLimit, paid, budget.bytesConsumed, estimate, accepted[..k])
      invariant Clocked(elapsed, clock, budget.wallClockConsumed, accepted[..k])
    {
      ClockedNext(elapsed, clock, budget.wallClockConsumed, accepted, k);
      ResultsNext(c.plan, before, exec, accepted, k);
      PaidExecute(exact, budget.bytesLimit, paid, budget.bytesConsumed, estimate, accepted, k);
      var recorded := c.Record(accepted[k].nodeId, outcomes[k]);
      if recorded.Err? {
        return Err(recorded.error), n;
      }
      SettlesNext(c.plan, exec, accepted, k);
      budget.Consume(ElapsedSeconds(elapsed, accepted[k].nodeId), estimate(accepted[k]).bytes);
      n := k + 1;
    }
    assert accepted[..|accepted|] == accepted;
    r := Ok(());
  }

  lemma PaidNone(exact: bool, limit: u64, consumed: u64, estimate: Estimator, accepted: seq<Dispatch>)
    ensures Paid(exact, limit, consumed, consumed, estimate, accepted[..0])
  {
  }

  lemma SettlesNext(p: Plan, exec: Executor, accepted: seq<Dispatch>, k: nat)
    requires k < |accepted| && Settles(p, exec, accepted[..k]) && Settle(p.spec.snapshotIdentity, exec(accepted[k])).Some?
    ensures Settles(p, exec, accepted[..k + 1])
  {
    assert accepted[..k + 1] == accepted[..k] + [accepted[k]];
  }

  // ---------------------------------------------------------------- one turn of the loop

  lemma {:induction false} AdmittedAscends(estimate: Estimator, policy: OversizePolicy, limit: u64, batch: seq<Dispatch>)
    requires Ascending(DispatchIds(batch))
    ensures Ascending(DispatchIds(Admitted(estimate, policy, limit, batch)))
  {
    if batch != [] {
      var init, last := batch[..|batch| - 1], batch[|batch| - 1];
      IdsLast(batch);
      AdmittedAscends(estimate, policy, limit, init);
      AdmittedWithin(estimate, policy, limit, init);
      var taken := Admitted(estimate, policy, limit, init);
      forall i | 0 <= i < |taken| ensures Below(taken[i].nodeId, last.nodeId) {
        assert taken[i] in taken;
        var j :| 0 <= j < |init| && init[j] == taken[i];
        assert DispatchIds(batch)[j] == taken[i].nodeId && DispatchIds(batch)[|batch| - 1] == last.nodeId;
      }
      assert DispatchIds(taken + [last]) == DispatchIds(taken) + [last.nodeId];
      assert forall i :: 0 <= i < |taken| ==> DispatchIds(taken)[i] == taken[i].nodeId;
      AppendAscends(DispatchIds(taken), last.nodeId);
    }
  }

  lemma AppendAscends(s: seq<string>, x: string)
    requires Ascending(s) && forall i :: 0 <= i < |s| ==> Below(s[i], x)
    ensures Ascending(s + [x])
  {
  }

  /** What holds between turns: nothing new is running or refused. */
  ghost predicate Looping(p: Plan, exec: Executor, start: RunStates, st: RunStates)
    requires PlanOk(p) && Covers(p, start)
  {
    Kept(p, exec, start, st) && RunningIds(st) == RunningIds(start) && RefusedIds(st) == RefusedIds(start)
  }

  lemma BatchKept(p: Plan, exec: Executor, start: RunStates, st: RunStates, batch: seq<Dispatch>)
    requires PlanOk(p) && Covers(p, start) && Kept(p, exec, start, st) && BatchOf(p, st, batch)
    ensures var next := Apply(p, st, NextBatch);
            && Kept(p, exec, start, next) && Grows(st, next)
            && RunningIds(next) == RunningIds(st) + IdSet(batch) && RunningIds(st) !! IdSet(batch)
            && RefusedIds(next) == RefusedIds(st) && ExecutedIds(next) == ExecutedIds(st)
            && (batch != [] ==> |PendingIds(next)| < |PendingIds(st)|)
    ensures DispatchIds(batch) == BatchIds(p, st) && Ascending(DispatchIds(batch))
  {
    BatchMembers(p, st);
    BatchSets(p, st);
    assert DispatchIds(batch) == BatchIds(p, st);
    IdsAreElements(batch);
    KeptStep(p, exec, start, st, NextBatch);
  }

  lemma IdsAreElements(batch: seq<Dispatch>)
    ensures IdSet(batch) == Elements(DispatchIds(batch))
  {
    forall id | id in IdSet(batch) ensures id in Elements(DispatchIds(batch)) {
      var i :| 0 <= i < |batch| && batch[i].nodeId == id;
      assert DispatchIds(batch)[i] == id;
    }
    forall id | id in Elements(DispatchIds(batch)) ensures id in IdSet(batch) {
      var i :| 0 <= i < |batch| && DispatchIds(batch)[i] == id;
      assert batch[i] in batch;
    }
  }

  lemma BatchOut(p: Plan, start: RunStates, st: RunStates, batch: seq<Dispatch>)
    requires Covers(p, st) && Settled(p, st) && BatchOf(p, st, batch)
    requires PendingIds(st) <= PendingIds(start)
    ensures OutWith(p, start, Apply(p, st, NextBatch), batch)
  {
    BatchMembers(p, st);
    forall d | d in batch
      ensures IsRunning(Apply(p, st, NextBatch), d.nodeId) && d.nodeId in start && start[d.nodeId].Pending?
      ensures d.nodeId in p.nodes && d.nodeId in p.deps && d == DispatchFor(p, Apply(p, st, NextBatch), d.nodeId)
    {
      var i :| 0 <= i < |batch| && batch[i] == d;
      assert BatchIds(p, st)[i] in BatchIds(p, st);
      assert d.nodeId in PendingIds(st);
      BatchDispatch(p, st, d.nodeId);
    }
  }

  lemma OutWithKept(p: Plan, start: RunStates, before: RunStates, after: RunStates, batch: seq<Dispatch>, accepted: seq<Dispatch>)
    requires Inv(p, before) && Grows(before, after) && OutWith(p, start, before, batch)
    requires (forall d :: d in accepted ==> d in batch) && IdSet(accepted) <= RunningIds(after)
    ensures OutWith(p, start, after, accepted)
  {
    forall d | d in accepted
      ensures IsRunning(after, d.nodeId) && d == DispatchFor(p, after, d.nodeId)
    {
      assert d in batch && d.nodeId in IdSet(accepted);
      RunningDispatch(p, before, after, d.nodeId);
    }
  }

  /** After admission without a stop: what was accepted is out with the executor, and nothing else of the batch runs. */
  lemma TurnAdmits(p: Plan, exec: Executor, start: RunStates, st: RunStates, batch: seq<Dispatch>,
                   estimate: Estimator, policy: OversizePolicy, limit: u64)
    requires PlanOk(p) && Covers(p, start) && Kept(p, exec, start, st) && BatchOf(p, st, batch)
    ensures var accepted := Admitted(estimate, policy, limit, batch);
            var next := AfterAdmission(p, Apply(p, st, NextBatch), estimate, policy, limit, batch);
            && Kept(p, exec, start, next) && Grows(st, next) && OutWith(p, start, next, accepted)
            && Ascending(DispatchIds(accepted)) && IdSet(accepted) <= RunningIds(next)
            && RunningIds(next) == RunningIds(st) + IdSet(accepted) && RunningIds(st) !! IdSet(accepted)
            && RefusedIds(next) == RefusedIds(st) && ExecutedIds(next) == ExecutedIds(st)
            && PendingIds(next) <= PendingIds(Apply(p, st, NextBatch))
  {
    var s1 := Apply(p, st, NextBatch);
    BatchKept(p, exec, start, st, batch);
    AdmissionKept(p, exec, start, s1, estimate, policy, limit, batch);
    AdmissionSets(p, s1, estimate, policy, limit, batch);
    AdmittedAscends(estimate, policy, limit, batch);
    AdmittedWithin(estimate, policy, limit, batch);
    TakenWithin(estimate, policy, limit, batch);
    TurnOut(p, exec, start, st, batch, estimate, policy, limit);
  }

  lemma TurnOut(p: Plan, exec: Executor, start: RunStates, st: RunStates, batch: seq<Dispatch>,
                estimate: Estimator, policy: OversizePolicy, limit: u64)
    requires PlanOk(p) && Covers(p, start) && Kept(p, exec, start, st) && BatchOf(p, st, batch)
    ensures OutWith(p, start, AfterAdmission(p, Apply(p, st, NextBatch), estimate, policy, limit, batch),
                    Admitted(estimate, policy, limit, batch))
  {
    var s1 := Apply(p, st, NextBatch);
    BatchKept(p, exec, start, st, batch);
    AdmissionSets(p, s1, estimate, policy, limit, batch);
    AdmittedWithin(estimate, policy, limit, batch);
    BatchOut(p, start, st, batch);
    OutWithKept(p, start, s1, AfterAdmission(p, s1, estimate, policy, limit, batch), batch, Admitted(estimate, policy, limit, batch));
  }

  lemma LedgerCounts(start: RunStates, st: RunStates, admitted: RunStates, next: RunStates, order: seq<Dispatch>, accepted: seq<Dispatch>)
    requires ExecutedIds(st) == ExecutedIds(start) + IdSet(order) && |ExecutedIds(st)| == |ExecutedIds(start)| + |order|
    requires ExecutedIds(admitted) == ExecutedIds(st)
    requires IdSet(accepted) <= RunningIds(admitted) && Ascending(DispatchIds(accepted))
    requires ExecutedIds(next) == ExecutedIds(admitted) + IdSet(accepted)
    ensures ExecutedIds(next) == ExecutedIds(start) + IdSet(order + accepted)
    ensures |ExecutedIds(next)| == |ExecutedIds(start)| + |order + accepted|
  {
    hide *;
    IdCount(accepted);
    RunningNotExecuted(admitted);
    IdsConcat(order, accepted);
    DisjointSize(ExecutedIds(st), IdSet(accepted));
  }

  lemma RunningNotExecuted(st: RunStates)
    ensures ExecutedIds(st) !! RunningIds(st)
  {
  }

  lemma IdsConcat(a: seq<Dispatch>, b: seq<Dispatch>)
    ensures IdSet(a + b) == IdSet(a) + IdSet(b)
  {
  }

  lemma DisjointSize(a: set<string>, b: set<string>)
    requires a !! b
    ensures |a + b| == |a| + |b|
  {
  }

  lemma LedgerNew(p: Plan, start: RunStates, admitted: RunStates, next: RunStates, accepted: seq<Dispatch>, d: Dispatch)
    requires Inv(p, admitted) && Grows(admitted, next) && OutWith(p, start, admitted, accepted) && d in accepted
    requires IdSet(accepted) <= ExecutedIds(next)
    ensures LedgerEntry(p, next, d)
  {
    assert d.nodeId in IdSet(accepted);
    RunningDispatch(p, admitted, next, d.nodeId);
  }

  lemma LedgerTurn(p: Plan, start: RunStates, st: RunStates, admitted: RunStates, exec: Executor, order: seq<Dispatch>, accepted: seq<Dispatch>)
    requires Inv(p, st) && Inv(p, admitted) && Grows(st, admitted) && Ledger(p, start, st, order)
    requires ExecutedIds(admitted) == ExecutedIds(st) && OutWith(p, start, admitted, accepted)
    requires Ascending(DispatchIds(accepted)) && Settles(p, exec, accepted)
    ensures Ledger(p, start, AfterResults(p, admitted, exec, accepted), order + accepted)
  {
    var next := AfterResults(p, admitted, exec, accepted);
    OutWithSets(p, start, admitted, accepted);
    ResultSets(p, admitted, exec, accepted);
    LedgerCounts(start, st, admitted, next, order, accepted);
    forall d | d in order + accepted ensures LedgerEntry(p, next, d) {
      if d in accepted {
        LedgerNew(p, start, admitted, next, accepted, d);
      } else {
        LedgerGrows(p, st, next, d);
      }
    }
  }

  // ---------------------------------------------------------------- the outcome

  /** Only a run with an executed node reports a budget stop; timeouts do not count as executed here. */
  predicate AnyExecuted(st: RunStates) {
    exists id :: id in st && (st[id].Succeeded? || st[id].DomainFailed? || st[id].ProcessFailed?)
  }

  /** The coordinator's outcome, overridden when the run stopped or when a skipped node would pass for completed. */
  function BudgetedOutcome(st: RunStates, stopped: bool): RunOutcome {
    if stopped || (OutcomeOf(st) == Completed && exists id :: id in st && st[id].SkippedOversize?) then
      if AnyExecuted(st) then BudgetStopped else Failed
    else OutcomeOf(st)
  }

  /** Every node succeeded with a known verdict exactly when the coordinator says completed and nothing was refused or skipped. */
  lemma SatisfiedExactly(p: Plan, st: RunStates)
    requires PlanOk(p) && Inv(p, st)
    ensures AllSatisfied(st) <==> OutcomeOf(st) == Completed && RefusedIds(st) == {} && SkippedIds(st) == {}
  {
    if OutcomeOf(st) == Completed && RefusedIds(st) == {} && SkippedIds(st) == {} {
      assert forall x :: x in st ==> x !in RefusedIds(st) && x !in SkippedIds(st);
      forall id | id in st ensures st[id].Succeeded? {
        assert st[id].Terminal();
        NoSourceNoBlock(p, st, id);
      }
    }
  }

  /** The reported outcome is honest: completed exactly when every node succeeded with a known verdict. */
  lemma HonestOutcome(p: Plan, st: RunStates, stopped: bool)
    requires PlanOk(p) && Inv(p, st)
    requires stopped <==> RefusedIds(st) != {}
    ensures BudgetedOutcome(st, stopped) == Completed <==> AllSatisfied(st)
  {
    if stopped {
      var id :| id in RefusedIds(st);
      assert !st[id].Succeeded?;
    } else if id :| id in st && st[id].SkippedOversize? {
      assert !st[id].Succeeded?;
    } else {
      SatisfiedExactly(p, st);
    }
  }

  /** The coordinator's own manifest is not: in every plan, refusing everything before the first batch is called completed. */
  lemma RefusedOverclaims(p: Plan, reason: string)
    requires PlanOk(p)
    ensures var st := ApplyAll(p, Unstarted(p), [MarkPendingNotDispatched(reason)]);
            ManifestOf(p, st).outcome == Completed && !AllSatisfied(st)
  {
    var op := MarkPendingNotDispatched(reason);
    assert [op][1..] == [];
    var st := Apply(p, Unstarted(p), op);
    var id :| id in p.nodes;
    assert st[id].NotDispatched?;
  }

  /** So is skipping the only node of a plan as oversize. */
  lemma SkippedOverclaims(p: Plan, id: string, reason: string, actualBytes: u64, byteLimit: u64)
    requires PlanOk(p) && p.nodes.Keys == {id} && p.deps[id] == []
    ensures var st := ApplyAll(p, Unstarted(p), [NextBatch, RecordSkippedOversize(id, reason, actualBytes, byteLimit)]);
            ManifestOf(p, st).outcome == Completed && !AllSatisfied(st)
  {
    var start, op := Unstarted(p), RecordSkippedOversize(id, reason, actualBytes, byteLimit);
    var running := Apply(p, start, NextBatch);
    LoneStarts(p, id);
    LoneSkipped(p, running, id, op);
    hide Apply, Unstarted, OutcomeOf, AllSatisfied;
    assert [NextBatch, op][1..] == [op] && [op][1..] == [];
    assert ApplyAll(p, start, [NextBatch, op]) == ApplyAll(p, running, [op]) == Apply(p, running, op);
  }

  lemma LoneStarts(p: Plan, id: string)
    requires PlanOk(p) && p.nodes.Keys == {id} && p.deps[id] == []
    ensures Apply(p, Unstarted(p), NextBatch) == map[id := Running]
  {
    var start := Unstarted(p);
    UnstartedStable(p);
    assert ReadyIds(p, start) == {id} && RunningIds(start) == {};
    AscendOne(id);
    hide ReadyIds, Settled, PlanOk, Ascend;
    assert BatchIds(p, start) == [id];
  }

  lemma LoneSkipped(p: Plan, running: RunStates, id: string, op: Op)
    requires running == map[id := Running] && op.RecordSkippedOversize? && op.id == id
    ensures var st := Apply(p, running, op); OutcomeOf(st) == Completed && !AllSatisfied(st)
  {
    var skipped := running[id := Oversized(op.reason, op.actualBytes, op.byteLimit)];
    PropagateFrame(p, skipped);
    assert Step(p, skipped, Propagate(p, skipped), id);
  }

  const LONE_SPEC := DagSpec(ZERO_DIGEST, 1, [NodeSpec("a", "f", "r")], [])

  /** There is a plan of one node. */
  lemma LoneExists()
    ensures ValidSpec(LONE_SPEC) && PlanOf(LONE_SPEC).nodes.Keys == {"a"} && PlanOf(LONE_SPEC).deps["a"] == []
  {
    var spec := LONE_SPEC;
    LoneNodes(spec);
    assert Sources(spec.edges, "a") == {};
    ShortcutLists();
    assert Ranks(map["a" := 0], PlanOf(spec).deps);
    hide NodesValid, ValidHeader, Ascend;
  }

  lemma LoneNodes(spec: DagSpec)
    requires spec == LONE_SPEC
    ensures ValidHeader(spec) && NodesValid(spec.nodes) && EdgesValid({"a"}, spec.edges) && NodeIds(spec.nodes) == {"a"}
  {
    assert "a"[0] == 'a' && "f"[0] == 'f' && "r"[0] == 'r';
    assert spec.nodes[0].id == "a";
  }

  // ---------------------------------------------------------------- the whole run

  datatype SkippedNode = SkippedNode(nodeId: string, actualBytes: u64, byteLimit: u64)

  datatype BudgetReport = BudgetReport(
    wallClockLimit: u64, bytesLimit: u64, wallClockConsumed: u64, bytesConsumed: u64,
    exceeded: bool, stoppedAt: Option<string>, thresholdPercent: nat, skippedNodes: seq<SkippedNode>)

  datatype BudgetedRun = BudgetedRun(manifest: RunManifest, budget: BudgetReport)

  function SkippedIds(st: RunStates): set<string> {
    set id | id in st && st[id].SkippedOversize?
  }

  function SkippedNodes(st: RunStates): seq<SkippedNode> {
    var ids := Ascend(SkippedIds(st));
    assert forall i :: 0 <= i < |ids| ==> ids[i] in ids;
    seq(|ids|, i requires 0 <= i < |ids| => SkippedNode(ids[i], st[ids[i]].actualBytes, st[ids[i]].byteLimit))
  }

  /** The nodes before position `n` of a batch that the oversize policy lets through. */
  function AcceptedBefore(p: Plan, last: RunStates, estimate: Estimator, policy: OversizePolicy, limit: u64, n: nat): set<string> {
    set id | id in BatchIds(p, last) && id in p.nodes && id in p.deps
             && (exists i :: 0 <= i < n && i < |BatchIds(p, last)| && BatchIds(p, last)[i] == id)
             && !Oversize(estimate, policy, limit, DispatchFor(p, last, id)) :: id
  }

  /** The run stopped in the batch that was due at `last`, at its dispatch `n`. */
  ghost predicate StoppedIn(p: Plan, last: RunStates, final: RunStates, estimate: Estimator, policy: OversizePolicy, limit: u64, n: nat, id: string) {
    && n < |BatchIds(p, last)| && BatchIds(p, last)[n] == id
    && RunningIds(final) == RunningIds(last) + AcceptedBefore(p, last, estimate, policy, limit, n)
    && PendingIds(final) == {} && id in RefusedIds(final)
  }

  lemma AcceptedIds(p: Plan, last: RunStates, estimate: Estimator, policy: OversizePolicy, limit: u64, batch: seq<Dispatch>, n: nat)
    requires BatchOf(p, last, batch) && n <= |batch|
    ensures IdSet(Admitted(estimate, policy, limit, batch[..n])) == AcceptedBefore(p, last, estimate, policy, limit, n)
  {
    AdmittedWithin(estimate, policy, limit, batch[..n]);
    var ids := BatchIds(p, last);
    forall id | id in IdSet(Admitted(estimate, policy, limit, batch[..n])) ensures id in AcceptedBefore(p, last, estimate, policy, limit, n) {
      var d :| d in batch[..n] && d.nodeId == id && !Oversize(estimate, policy, limit, d);
      var i :| 0 <= i < n && batch[..n][i] == d;
      assert batch[i] == d && ids[i] == id;
    }
    forall id | id in AcceptedBefore(p, last, estimate, policy, limit, n) ensures id in IdSet(Admitted(estimate, policy, limit, batch[..n])) {
      var i :| 0 <= i < n && i < |ids| && ids[i] == id;
      assert batch[..n][i] == batch[i] && batch[i] in batch[..n];
    }
  }

  lemma TurnStops(p: Plan, exec: Executor, start: RunStates, st: RunStates, batch: seq<Dispatch>,
                  estimate: Estimator, policy: OversizePolicy, limit: u64, n: nat)
    requires PlanOk(p) && Covers(p, start) && Kept(p, exec, start, st) && BatchOf(p, st, batch) && n < |batch|
    ensures var final := AfterStop(p, Apply(p, st, NextBatch), estimate, policy, limit, batch, n);
            && StoppedIn(p, st, final, estimate, policy, limit, n, batch[n].nodeId)
            && Kept(p, exec, start, final) && Grows(st, final) && ExecutedIds(final) == ExecutedIds(st)
  {
    var s1 := Apply(p, st, NextBatch);
    BatchKept(p, exec, start, st, batch);
    StopSets(p, s1, estimate, policy, limit, batch, n);
    StopKept(p, exec, start, s1, estimate, policy, limit, batch, n);
    AcceptedIds(p, st, estimate, policy, limit, batch, n);
    assert DispatchIds(batch)[n] == batch[n].nodeId;
  }

  lemma LedgerKept(p: Plan, start: RunStates, before: RunStates, after: RunStates, order: seq<Dispatch>)
    requires Inv(p, before) && Grows(before, after) && ExecutedIds(after) == ExecutedIds(before) && Ledger(p, start, before, order)
    ensures Ledger(p, start, after, order)
  {
    forall d | d in order ensures LedgerEntry(p, after, d) {
      assert LedgerEntry(p, before, d);
      LedgerGrows(p, before, after, d);
    }
  }

  /** An answer the coordinator refuses to record belongs to a node no run can finish. */
  lemma ForeignIsStuck(p: Plan, exec: Executor, start: RunStates, st: RunStates, accepted: seq<Dispatch>, k: nat)
    requires PlanOk(p) && Covers(p, start) && Kept(p, exec, start, st)
    requires OutWith(p, start, st, accepted) && ForeignAt(p, exec, accepted, k)
    ensures FailedBy(p, exec, start, ForeignArtifact(accepted[k].nodeId))
  {
    var d := accepted[k];
    assert d in accepted && NodeOk(p, st, d.nodeId);
    FaithfulFate(p, exec, start, st, d.nodeId);
    SettlesExactly(p.spec.snapshotIdentity, exec(d));
    assert AnswersForeign(p, exec, d.nodeId);
  }

  // ---------------------------------------------------------------- what the oversize gate did

  /** Every node this run skipped was over the gate on its final inputs, and is stored with its size and the limit. */
  ghost predicate SkipsSay(p: Plan, start: RunStates, st: RunStates, estimate: Estimator, policy: OversizePolicy, limit: u64) {
    forall id {:trigger SkipSays(p, start, st, estimate, policy, limit, id)} :: id in st ==> SkipSays(p, start, st, estimate, policy, limit, id)
  }

  ghost predicate SkipSays(p: Plan, start: RunStates, st: RunStates, estimate: Estimator, policy: OversizePolicy, limit: u64, id: string)
    requires id in st
  {
    st[id].SkippedOversize? && !(id in start && start[id].SkippedOversize?) ==>
      && id in p.nodes && id in p.deps
      && Oversize(estimate, policy, limit, DispatchFor(p, st, id))
      && st[id].actualBytes == estimate(DispatchFor(p, st, id)).bytes && st[id].byteLimit == limit
  }

  /** The gate so far: what was skipped was oversize, and nothing executed was. */
  ghost predicate Gated(p: Plan, start: RunStates, st: RunStates, estimate: Estimator, policy: OversizePolicy, limit: u64, order: seq<Dispatch>) {
    SkipsSay(p, start, st, estimate, policy, limit) && forall d :: d in order ==> !Oversize(estimate, policy, limit, d)
  }

  lemma SkipsStable(p: Plan, start: RunStates, before: RunStates, after: RunStates, estimate: Estimator, policy: OversizePolicy, limit: u64)
    requires Inv(p, before) && Grows(before, after) && SkippedIds(after) <= SkippedIds(before)
    requires SkipsSay(p, start, before, estimate, policy, limit)
    ensures SkipsSay(p, start, after, estimate, policy, limit)
  {
    forall id | id in after ensures SkipSays(p, start, after, estimate, policy, limit, id) {
      if id in SkippedIds(after) {
        assert id in SkippedIds(before) && NodeOk(p, before, id) && SkipSays(p, start, before, estimate, policy, limit, id);
        hide Inv, Oversize;
        if !(id in start && start[id].SkippedOversize?) {
          DispatchStable(p, before, after, id);
        }
      }
    }
  }

  lemma SkipOne(p: Plan, start: RunStates, st: RunStates, d: Dispatch, estimate: Estimator, policy: OversizePolicy, limit: u64)
    requires Inv(p, st) && SkipsSay(p, start, st, estimate, policy, limit) && Oversize(estimate, policy, limit, d)
    requires IsRunning(st, d.nodeId) && d.nodeId in p.nodes && d.nodeId in p.deps && d == DispatchFor(p, st, d.nodeId)
    ensures SkipsSay(p, start, Apply(p, st, SkipOp(estimate, policy, limit, d)), estimate, policy, limit)
  {
    var after := Apply(p, st, SkipOp(estimate, policy, limit, d));
    SkipEffect(p, st, d.nodeId, SkipOp(estimate, policy, limit, d));
    assert NodeOk(p, st, d.nodeId);
    DispatchStable(p, st, after, d.nodeId);
    hide Apply, Oversize;
    forall id | id in after ensures SkipSays(p, start, after, estimate, policy, limit, id) {
      if id != d.nodeId && id in SkippedIds(after) {
        assert id in SkippedIds(st) && NodeOk(p, st, id) && SkipSays(p, start, st, estimate, policy, limit, id);
        hide Inv;
        if !(id in start && start[id].SkippedOversize?) {
          DispatchStable(p, st, after, id);
        }
      }
    }
  }

  lemma SkipEffect(p: Plan, st: RunStates, id: string, op: Op)
    requires IsRunning(st, id) && op.RecordSkippedOversize? && op.id == id
    ensures var after := Apply(p, st, op);
            && Grows(st, after) && SkippedIds(after) == SkippedIds(st) + {id}
            && after[id].SkippedOversize? && after[id].actualBytes == op.actualBytes && after[id].byteLimit == op.byteLimit
  {
    var s := Oversized(op.reason, op.actualBytes, op.byteLimit);
    PropagateFrame(p, st[id := s]);
    assert forall x :: x in st ==> Step(p, st[id := s], Propagate(p, st[id := s]), x);
  }

  lemma OthersSkipNothing(p: Plan, st: RunStates, op: Op)
    requires !op.RecordSkippedOversize?
    ensures SkippedIds(Apply(p, st, op)) <= SkippedIds(st)
  {
    match op
    case NextBatch => PropagateSkips(p, st);
    case Record(id, outcome) =>
      var settled := Settle(p.spec.snapshotIdentity, outcome);
      if IsRunning(st, id) && settled.Some? {
        SettleSound(p.spec.snapshotIdentity, outcome);
        PropagateSkips(p, st[id := settled.value]);
      }
    case RecordNotDispatched(_, _) =>
    case MarkPendingNotDispatched(_) =>
  }

  lemma PropagateSkips(p: Plan, st: RunStates)
    ensures SkippedIds(Propagate(p, st)) == SkippedIds(st)
  {
    PropagateFrame(p, st);
    assert forall id :: id in st ==> Step(p, st, Propagate(p, st), id);
  }

  lemma {:induction false} RefusalSkipsNothing(p: Plan, st: RunStates, batch: seq<Dispatch>, reason: string)
    ensures SkippedIds(AfterRefusal(p, st, batch, reason)) <= SkippedIds(st)
  {
    if batch != [] {
      var init, last := batch[..|batch| - 1], batch[|batch| - 1];
      RefusalSkipsNothing(p, st, init, reason);
      OthersSkipNothing(p, AfterRefusal(p, st, init, reason), RecordNotDispatched(last.nodeId, reason));
    }
  }

  lemma {:induction false} ResultsSkipNothing(p: Plan, st: RunStates, exec: Executor, accepted: seq<Dispatch>)
    ensures SkippedIds(AfterResults(p, st, exec, accepted)) <= SkippedIds(st)
  {
    if accepted != [] {
      var init, last := accepted[..|accepted| - 1], accepted[|accepted| - 1];
      ResultsSkipNothing(p, st, exec, init);
      OthersSkipNothing(p, AfterResults(p, st, exec, init), Record(last.nodeId, exec(last)));
    }
  }

  /** Admission skips exactly what the gate says. */
  lemma {:induction false} AdmissionSkips(p: Plan, exec: Executor, start: RunStates, st: RunStates, estimate: Estimator, policy: OversizePolicy,
                                          limit: u64, batch: seq<Dispatch>)
    requires PlanOk(p) && Covers(p, start) && Kept(p, exec, start, st)
    requires Ascending(DispatchIds(batch)) && OutWith(p, start, st, batch) && SkipsSay(p, start, st, estimate, policy, limit)
    ensures SkipsSay(p, start, AfterAdmission(p, st, estimate, policy, limit, batch), estimate, policy, limit)
  {
    if batch != [] {
      var init, last := batch[..|batch| - 1], batch[|batch| - 1];
      hide *;
      IdsLast(batch);
      OutWithSets(p, start, st, batch);
      OutWithin(p, start, st, batch, |batch| - 1);
      LastOut(p, start, st, batch);
      AdmissionSkips(p, exec, start, st, estimate, policy, limit, init);
      AdmissionKept(p, exec, start, st, estimate, policy, limit, init);
      OutWithSets(p, start, st, init);
      AdmissionSets(p, st, estimate, policy, limit, init);
      TakenWithin(estimate, policy, limit, init);
      StillRunning(st, AfterAdmission(p, st, estimate, policy, limit, init), last.nodeId, IdSet(init), IdSet(Admitted(estimate, policy, limit, init)));
      LastSkips(p, exec, start, st, estimate, policy, limit, init, last);
    }
  }

  lemma LastOut(p: Plan, start: RunStates, st: RunStates, batch: seq<Dispatch>)
    requires OutWith(p, start, st, batch) && batch != []
    ensures var last := batch[|batch| - 1];
            && IsRunning(st, last.nodeId) && last.nodeId in p.nodes && last.nodeId in p.deps && last == DispatchFor(p, st, last.nodeId)
  {
    assert batch[|batch| - 1] in batch;
  }

  lemma StillRunning(before: RunStates, after: RunStates, id: string, gone: set<string>, kept: set<string>)
    requires RunningIds(after) == (RunningIds(before) - gone) + kept && IsRunning(before, id) && id !in gone
    ensures IsRunning(after, id)
  {
    assert id in RunningIds(before) && id in RunningIds(after);
  }

  lemma LastSkips(p: Plan, exec: Executor, start: RunStates, st: RunStates, estimate: Estimator, policy: OversizePolicy,
                  limit: u64, init: seq<Dispatch>, last: Dispatch)
    requires PlanOk(p) && Covers(p, start) && Kept(p, exec, start, st)
    requires IsRunning(st, last.nodeId) && last.nodeId in p.nodes && last.nodeId in p.deps && last == DispatchFor(p, st, last.nodeId)
    requires var mid := AfterAdmission(p, st, estimate, policy, limit, init);
             && Kept(p, exec, start, mid) && Grows(st, mid) && IsRunning(mid, last.nodeId)
             && SkipsSay(p, start, mid, estimate, policy, limit)
    ensures SkipsSay(p, start, AfterAdmission(p, st, estimate, policy, limit, init + [last]), estimate, policy, limit)
  {
    var mid := AfterAdmission(p, st, estimate, policy, limit, init);
    assert (init + [last])[..|init|] == init;
    RunningDispatch(p, st, mid, last.nodeId);
    if Oversize(estimate, policy, limit, last) {
      SkipOne(p, start, mid, last, estimate, policy, limit);
    }
  }

  /** A stopping turn: the gate's skips, then refusals only. */
  lemma StopSkips(p: Plan, exec: Executor, start: RunStates, st: RunStates, final: RunStates, batch: seq<Dispatch>,
                  estimate: Estimator, policy: OversizePolicy, limit: u64, n: nat, id: string)
    requires PlanOk(p) && Covers(p, start) && Kept(p, exec, start, st) && BatchOf(p, st, batch)
    requires StoppedAt(p, Apply(p, st, NextBatch), final, estimate, policy, limit, batch, n, id)
    requires SkipsSay(p, start, st, estimate, policy, limit)
    ensures SkipsSay(p, start, final, estimate, policy, limit)
  {
    var s1, reason := Apply(p, st, NextBatch), BUDGET_REASON;
    var admitted := AfterAdmission(p, s1, estimate, policy, limit, batch[..n]);
    AdmittedSkips(p, exec, start, st, batch, estimate, policy, limit, n);
    StopGrows(p, exec, start, st, batch, estimate, policy, limit, n);
    RefusalSkipsNothing(p, admitted, batch[n..], reason);
    OthersSkipNothing(p, AfterRefusal(p, admitted, batch[n..], reason), MarkPendingNotDispatched(reason));
    hide AfterAdmission, AfterRefusal, Apply, SkipsSay, BatchOf, Faithful;
    SkipsStable(p, start, admitted, final, estimate, policy, limit);
  }

  lemma StopGrows(p: Plan, exec: Executor, start: RunStates, st: RunStates, batch: seq<Dispatch>,
                  estimate: Estimator, policy: OversizePolicy, limit: u64, n: nat)
    requires PlanOk(p) && Covers(p, start) && Kept(p, exec, start, st) && BatchOf(p, st, batch) && n < |batch|
    ensures var admitted := AfterAdmission(p, Apply(p, st, NextBatch), estimate, policy, limit, batch[..n]);
            Grows(admitted, AfterStop(p, Apply(p, st, NextBatch), estimate, policy, limit, batch, n))
  {
    var s1, reason := Apply(p, st, NextBatch), BUDGET_REASON;
    var admitted := AfterAdmission(p, s1, estimate, policy, limit, batch[..n]);
    BatchKept(p, exec, start, st, batch);
    SplitIds(batch, n);
    AdmissionSets(p, s1, estimate, policy, limit, batch[..n]);
    TakenWithin(estimate, policy, limit, batch[..n]);
    hide Apply, AfterAdmission, Kept;
    assert IdSet(batch[n..]) <= RunningIds(admitted);
    RefusalSets(p, admitted, batch[n..], reason);
    MarkGrows(p, AfterRefusal(p, admitted, batch[n..], reason), reason);
  }

  lemma MarkGrows(p: Plan, st: RunStates, reason: string)
    ensures Grows(st, Apply(p, st, MarkPendingNotDispatched(reason)))
  {
  }

  lemma AdmittedSkips(p: Plan, exec: Executor, start: RunStates, st: RunStates, batch: seq<Dispatch>,
                      estimate: Estimator, policy: OversizePolicy, limit: u64, n: nat)
    requires PlanOk(p) && Covers(p, start) && Kept(p, exec, start, st) && BatchOf(p, st, batch) && n <= |batch|
    requires SkipsSay(p, start, st, estimate, policy, limit)
    ensures var admitted := AfterAdmission(p, Apply(p, st, NextBatch), estimate, policy, limit, batch[..n]);
            SkipsSay(p, start, admitted, estimate, policy, limit) && Kept(p, exec, start, admitted)
  {
    hide *;
    var s1 := Apply(p, st, NextBatch);
    BatchKept(p, exec, start, st, batch);
    KeptParts(p, exec, start, st);
    KeptParts(p, exec, start, s1);
    OthersSkipNothing(p, st, NextBatch);
    BatchOut(p, start, st, batch);
    SplitIds(batch, n);
    OutWithin(p, start, s1, batch, n);
    SkipsStable(p, start, st, s1, estimate, policy, limit);
    AdmissionSkips(p, exec, start, s1, estimate, policy, limit, batch[..n]);
    AdmissionKept(p, exec, start, s1, estimate, policy, limit, batch[..n]);
  }

  lemma KeptParts(p: Plan, exec: Executor, start: RunStates, st: RunStates)
    requires PlanOk(p) && Covers(p, start) && Kept(p, exec, start, st)
    ensures Inv(p, st) && Settled(p, st) && Covers(p, st) && Grows(start, st) && PendingIds(st) <= PendingIds(start)
  {
  }

  lemma OutWithin(p: Plan, start: RunStates, st: RunStates, batch: seq<Dispatch>, n: nat)
    requires OutWith(p, start, st, batch) && n <= |batch|
    ensures OutWith(p, start, st, batch[..n])
  {
    assert forall d :: d in batch[..n] ==> d in batch;
  }

  /** The dispatches due in a state. */
  function Due(p: Plan, st: RunStates): (batch: seq<Dispatch>)
    requires Covers(p, st)
    ensures BatchOf(p, st, batch)
  {
    BatchMembers(p, st);
    var ids := BatchIds(p, st);
    assert forall i :: 0 <= i < |ids| ==> ids[i] in ids;
    seq(|ids|, i requires 0 <= i < |ids| => DispatchFor(p, st, ids[i]))
  }

  lemma DueUnique(p: Plan, st: RunStates, batch: seq<Dispatch>)
    requires Covers(p, st) && BatchOf(p, st, batch)
    ensures batch == Due(p, st)
  {
  }

  /** The turn due in a state gets through `n` dispatches of its batch, and stops the run there or not. */
  ghost predicate TurnAt(p: Plan, st: RunStates, budget: Budget, spent: Account, estimate: Estimator, policy: OversizePolicy,
                         n: nat, stopped: bool)
  {
    Covers(p, st) && Turned(budget, spent, estimate, policy, Due(p, st), n, stopped)
  }

  /** An empty batch leaves an unfinished run unfinished, so the loop's second look before it reports an error finds nothing new. */
  lemma EmptyBatchStaysUnfinished(p: Plan, st: RunStates)
    requires Settled(p, st) && BatchIds(p, st) == [] && !AllTerminal(st)
    ensures !AllTerminal(Apply(p, st, NextBatch))
  {
    assert Apply(p, st, NextBatch) == Start(st, []);
    var id :| id in st && !st[id].Terminal();
    assert Start(st, [])[id] == st[id];
  }

  lemma TurnAtDue(p: Plan, st: RunStates, budget: Budget, spent: Account, estimate: Estimator, policy: OversizePolicy,
                  batch: seq<Dispatch>, n: nat, stopped: bool)
    requires Covers(p, st) && batch == Due(p, st) && Turned(budget, spent, estimate, policy, batch, n, stopped)
    ensures TurnAt(p, st, budget, spent, estimate, policy, n, stopped)
  {
  }

  /** With nothing due the turn ends the run in an error, which only a leftover can cause. */
  lemma NothingDue(p: Plan, exec: Executor, start: RunStates, st: RunStates, budget: Budget, spent: Account,
                   estimate: Estimator, policy: OversizePolicy)
    requires PlanOk(p) && Covers(p, start) && Looping(p, exec, start, st) && Settled(p, st) && !AllTerminal(st)
    requires Covers(p, st) && Due(p, st) == []
    ensures RunError(p, exec, start, NO_SCHEDULABLE_WORK) && !AllTerminal(Apply(p, st, NextBatch))
    ensures TurnAt(p, st, budget, spent, estimate, policy, 0, false)
  {
    EmptyBatchMeansLeftOver(p, start, st);
    EmptyBatchStaysUnfinished(p, st);
  }

  /** How a turn leaves the run: stopped in its batch, or with nothing new running and fewer nodes pending. */
  ghost predicate TurnEnds(p: Plan, exec: Executor, start: RunStates, st: RunStates, final: RunStates,
                           estimate: Estimator, policy: OversizePolicy, limit: u64, n: nat, stoppedAt: Option<string>)
    requires PlanOk(p) && Covers(p, start)
  {
    && Kept(p, exec, start, final)
    && if stoppedAt.Some? then StoppedIn(p, st, final, estimate, policy, limit, n, stoppedAt.value)
       else Looping(p, exec, start, final) && |PendingIds(final)| < |PendingIds(st)|
  }

  lemma TurnEnded(p: Plan, exec: Executor, start: RunStates, st: RunStates, final: RunStates,
                  estimate: Estimator, policy: OversizePolicy, limit: u64, n: nat, stoppedAt: Option<string>)
    requires PlanOk(p) && Covers(p, start)
    requires stoppedAt.Some? ==> Kept(p, exec, start, final) && StoppedIn(p, st, final, estimate, policy, limit, n, stoppedAt.value)
    requires stoppedAt.None? ==> Looping(p, exec, start, final) && |PendingIds(final)| < |PendingIds(st)|
    ensures TurnEnds(p, exec, start, st, final, estimate, policy, limit, n, stoppedAt)
  {
    hide StoppedIn;
  }

  lemma TurnEndsParts(p: Plan, exec: Executor, start: RunStates, st: RunStates, final: RunStates,
                      estimate: Estimator, policy: OversizePolicy, limit: u64, n: nat, stoppedAt: Option<string>)
    requires PlanOk(p) && Covers(p, start) && TurnEnds(p, exec, start, st, final, estimate, policy, limit, n, stoppedAt)
    ensures Kept(p, exec, start, final)
    ensures stoppedAt.Some? ==> StoppedIn(p, st, final, estimate, policy, limit, n, stoppedAt.value)
    ensures stoppedAt.None? ==> Looping(p, exec, start, final) && |PendingIds(final)| < |PendingIds(st)|
  {
    hide StoppedIn, Looping;
  }

  /** One turn: start the due batch, admit it, and either stop or execute what was accepted. */
  method RunTurn(c: Coordinator, exec: Executor, ghost start: RunStates, budget: Budget, estimate: Estimator, policy: OversizePolicy,
                 elapsed: string -> u64, ghost exact: bool, ghost atStart: Account, ghost order: seq<Dispatch>)
    returns (r: Result<Option<string>, CoordinatorError>, ghost executed: seq<Dispatch>, ghost n: nat)
    requires c.Valid() && Covers(c.plan, start) && policy.Valid() && (exact ==> GuardExact(policy, budget.bytesLimit))
    requires Looping(c.plan, exec, start, c.states) && !AllTerminal(c.states)
    requires Accounted(c.plan, start, c.states, exact, budget.bytesLimit, atStart, budget.Spent(), estimate, policy, elapsed, order)
    modifies c`states, budget
    ensures c.Valid()
    ensures r.Ok? ==> Accounted(c.plan, start, c.states, exact, budget.bytesLimit, atStart, budget.Spent(), estimate, policy, elapsed, executed)
    ensures r.Ok? ==> TurnEnds(c.plan, exec, start, old(c.states), c.states, estimate, policy, budget.bytesLimit, n, r.value)
    ensures r.Ok? && r.value.Some? ==> budget.Spent() == old(budget.Spent())
    ensures TurnAt(c.plan, old(c.states), budget, old(budget.Spent()), estimate, policy, n, r.Ok? && r.value.Some?)
    ensures r.Err? ==> RunError(c.plan, exec, start, r.error)
  {
    ghost var st, spent := c.states, budget.Spent();
    executed, n := order, 0;
    assert PlanOk(c.plan) && Covers(c.plan, st) && Kept(c.plan, exec, start, st);
    hide *;
    var batch, accepted, stoppedAt;
    batch, accepted, stoppedAt, n := AdmitDue(c, budget, estimate, policy, exact);
    if batch == [] {
      NothingDue(c.plan, exec, start, st, budget, spent, estimate, policy);
      r := Err(NO_SCHEDULABLE_WORK);
      return;
    }
    if stoppedAt.Some? {
      StopAccounts(c.plan, exec, start, st, c.states, batch, exact, budget.bytesLimit, atStart, spent, estimate, policy, elapsed,
                   n, stoppedAt.value, order);
      TurnEnded(c.plan, exec, start, st, c.states, estimate, policy, budget.bytesLimit, n, stoppedAt);
      r := Ok(stoppedAt);
      return;
    }
    TurnAdmitted(c.plan, exec, start, st, c.states, batch, exact, budget.bytesLimit, atStart, spent, estimate, policy, elapsed, accepted, order);
    executed := order + accepted;
    FitsNarrower(exact, atStart.bytes, budget, estimate, accepted);
    var ran := FinishTurn(c, exec, start, st, batch, accepted, budget, estimate, policy, elapsed, exact, atStart, order);
    if ran.Ok? {
      TurnEnded(c.plan, exec, start, st, c.states, estimate, policy, budget.bytesLimit, n, None);
      r := Ok(None);
    } else {
      FailedRuns(c.plan, exec, start, ran.error);
      r := Err(ran.error);
    }
  }

  /** Starts the due batch and admits it. */
  method AdmitDue(c: Coordinator, budget: Budget, estimate: Estimator, policy: OversizePolicy, ghost exact: bool)
    returns (batch: seq<Dispatch>, accepted: seq<Dispatch>, stoppedAt: Option<string>, ghost n: nat)
    requires c.Valid() && policy.Valid() && (exact ==> GuardExact(policy, budget.bytesLimit))
    modifies c`states
    ensures c.Valid() && Covers(c.plan, old(c.states)) && batch == Due(c.plan, old(c.states)) && BatchOf(c.plan, old(c.states), batch)
    ensures TurnAt(c.plan, old(c.states), budget, budget.Spent(), estimate, policy, n, stoppedAt.Some?)
    ensures stoppedAt.None? ==>
      AdmittedUpTo(c.plan, Apply(c.plan, old(c.states), NextBatch), c.states, estimate, policy, budget.bytesLimit, batch, |batch|, accepted)
    ensures stoppedAt.Some? ==> batch != []
    ensures stoppedAt.Some? ==>
      StoppedAt(c.plan, Apply(c.plan, old(c.states), NextBatch), c.states, estimate, policy, budget.bytesLimit, batch, n, stoppedAt.value)
    ensures Fits(exact, budget.bytesLimit, budget.bytesConsumed, estimate, accepted)
  {
    ghost var st := c.states;
    assert PlanOk(c.plan) && Covers(c.plan, st) && Settled(c.plan, st);
    hide *;
    batch := c.NextBatch();
    DueStarted(c.plan, st, batch);
    DueUnique(c.plan, st, batch);
    accepted, stoppedAt, n := AdmitBatch(c, batch, budget, estimate, policy, exact);
    TurnAtDue(c.plan, st, budget, budget.Spent(), estimate, policy, batch, n, stoppedAt.Some?);
    if stoppedAt.Some? {
      StoppedSome(c.plan, Apply(c.plan, st, NextBatch), c.states, estimate, policy, budget.bytesLimit, batch, n, stoppedAt.value);
    }
  }

  lemma DueStarted(p: Plan, st: RunStates, batch: seq<Dispatch>)
    requires PlanOk(p) && Covers(p, st) && Settled(p, st) && BatchOf(p, st, batch)
    ensures Ascending(DispatchIds(batch)) && IdSet(batch) <= RunningIds(Apply(p, st, NextBatch))
  {
    BatchMembers(p, st);
    BatchSets(p, st);
    assert DispatchIds(batch) == BatchIds(p, st);
    IdsAreElements(batch);
    hide Apply, BatchIds, RunningIds;
  }

  lemma StoppedSome(p: Plan, before: RunStates, final: RunStates, estimate: Estimator, policy: OversizePolicy, limit: u64,
                    batch: seq<Dispatch>, n: nat, id: string)
    requires StoppedAt(p, before, final, estimate, policy, limit, batch, n, id)
    ensures batch != []
  {
    hide AfterStop;
  }

  lemma FitsNarrower(exact: bool, atStart: u64, budget: Budget, estimate: Estimator, accepted: seq<Dispatch>)
    requires Fits(exact, budget.bytesLimit, budget.bytesConsumed, estimate, accepted)
    ensures Fits(exact && atStart <= budget.bytesLimit, budget.bytesLimit, budget.bytesConsumed, estimate, accepted)
  {
  }

  lemma LoopingKept(p: Plan, exec: Executor, start: RunStates, st: RunStates)
    requires PlanOk(p) && Covers(p, start) && Looping(p, exec, start, st)
    ensures Kept(p, exec, start, st)
  {
  }

  lemma FailedRuns(p: Plan, exec: Executor, start: RunStates, error: CoordinatorError)
    requires PlanOk(p) && Covers(p, start) && FailedBy(p, exec, start, error)
    ensures RunError(p, exec, start, error)
  {
  }

  lemma TurnAdmitted(p: Plan, exec: Executor, start: RunStates, st: RunStates, admitted: RunStates, batch: seq<Dispatch>, exact: bool,
                     limit: u64, atStart: Account, spent: Account, estimate: Estimator, policy: OversizePolicy,
                     elapsed: string -> u64, accepted: seq<Dispatch>, order: seq<Dispatch>)
    requires PlanOk(p) && Covers(p, start) && Looping(p, exec, start, st) && BatchOf(p, st, batch) && batch != []
    requires AdmittedUpTo(p, Apply(p, st, NextBatch), admitted, estimate, policy, limit, batch, |batch|, accepted)
    requires Accounted(p, start, st, exact, limit, atStart, spent, estimate, policy, elapsed, order)
    ensures Executing(p, exec, start, st, admitted, accepted) && SkipsSay(p, start, admitted, estimate, policy, limit)
    ensures accepted == Admitted(estimate, policy, limit, batch)
  {
    hide *;
    LoopingKept(p, exec, start, st);
    AccountedParts(p, start, st, exact, limit, atStart, spent, estimate, policy, elapsed, order);
    TurnExecuting(p, exec, start, st, admitted, batch, estimate, policy, limit, accepted);
    GateParts(p, exec, start, st, admitted, batch, estimate, policy, limit, accepted, order);
  }

  lemma TurnStopped(p: Plan, exec: Executor, start: RunStates, st: RunStates, final: RunStates, batch: seq<Dispatch>,
                    estimate: Estimator, policy: OversizePolicy, limit: u64, n: nat, id: string, order: seq<Dispatch>)
    requires PlanOk(p) && Covers(p, start) && Kept(p, exec, start, st) && BatchOf(p, st, batch)
    requires StoppedAt(p, Apply(p, st, NextBatch), final, estimate, policy, limit, batch, n, id)
    requires Ledger(p, start, st, order)
    ensures StoppedIn(p, st, final, estimate, policy, limit, n, id) && Kept(p, exec, start, final) && Ledger(p, start, final, order)
  {
    TurnStops(p, exec, start, st, batch, estimate, policy, limit, n);
    LedgerKept(p, start, st, final, order);
  }

  lemma TurnExecuting(p: Plan, exec: Executor, start: RunStates, st: RunStates, admitted: RunStates, batch: seq<Dispatch>,
                      estimate: Estimator, policy: OversizePolicy, limit: u64, accepted: seq<Dispatch>)
    requires PlanOk(p) && Covers(p, start) && Looping(p, exec, start, st) && BatchOf(p, st, batch) && batch != []
    requires AdmittedUpTo(p, Apply(p, st, NextBatch), admitted, estimate, policy, limit, batch, |batch|, accepted)
    ensures Executing(p, exec, start, st, admitted, accepted)
  {
    assert batch[..|batch|] == batch;
    TurnAdmits(p, exec, start, st, batch, estimate, policy, limit);
    BatchKept(p, exec, start, st, batch);
    SubsetSize(PendingIds(admitted), PendingIds(Apply(p, st, NextBatch)));
  }

  /** A batch in execution: the accepted dispatches are out, on top of what the last turn left. */
  ghost predicate Executing(p: Plan, exec: Executor, start: RunStates, st: RunStates, admitted: RunStates, accepted: seq<Dispatch>)
    requires PlanOk(p) && Covers(p, start)
  {
    && Looping(p, exec, start, st) && Kept(p, exec, start, admitted) && Grows(st, admitted)
    && OutWith(p, start, admitted, accepted) && Ascending(DispatchIds(accepted)) && IdSet(accepted) <= RunningIds(admitted)
    && RunningIds(admitted) == RunningIds(st) + IdSet(accepted) && RunningIds(st) !! IdSet(accepted)
    && RefusedIds(admitted) == RefusedIds(st) && ExecutedIds(admitted) == ExecutedIds(st)
    && |PendingIds(admitted)| < |PendingIds(st)|
  }

  lemma TurnDone(p: Plan, exec: Executor, start: RunStates, st: RunStates, admitted: RunStates, order: seq<Dispatch>, accepted: seq<Dispatch>)
    requires PlanOk(p) && Covers(p, start) && Executing(p, exec, start, st, admitted, accepted)
    requires Ledger(p, start, st, order) && Settles(p, exec, accepted)
    ensures var next := AfterResults(p, admitted, exec, accepted);
            && Looping(p, exec, start, next) && Ledger(p, start, next, order + accepted) && |PendingIds(next)| < |PendingIds(st)|
  {
    ResultsKept(p, exec, start, admitted, accepted);
    ResultSets(p, admitted, exec, accepted);
    LedgerTurn(p, start, st, admitted, exec, order, accepted);
    SubsetSize(PendingIds(AfterResults(p, admitted, exec, accepted)), PendingIds(admitted));
  }

  lemma StopGated(p: Plan, exec: Executor, start: RunStates, st: RunStates, final: RunStates, batch: seq<Dispatch>,
                  estimate: Estimator, policy: OversizePolicy, limit: u64, n: nat, id: string, order: seq<Dispatch>)
    requires PlanOk(p) && Covers(p, start) && Kept(p, exec, start, st) && BatchOf(p, st, batch)
    requires StoppedAt(p, Apply(p, st, NextBatch), final, estimate, policy, limit, batch, n, id)
    requires Gated(p, start, st, estimate, policy, limit, order)
    ensures Gated(p, start, final, estimate, policy, limit, order)
  {
    hide Kept, BatchOf, StoppedAt, Oversize, SkipsSay;
    StopSkips(p, exec, start, st, final, batch, estimate, policy, limit, n, id);
  }

  lemma DoneSkips(p: Plan, exec: Executor, start: RunStates, st: RunStates, admitted: RunStates, accepted: seq<Dispatch>,
                  estimate: Estimator, policy: OversizePolicy, limit: u64)
    requires PlanOk(p) && Covers(p, start) && Executing(p, exec, start, st, admitted, accepted) && Settles(p, exec, accepted)
    requires SkipsSay(p, start, admitted, estimate, policy, limit)
    ensures SkipsSay(p, start, AfterResults(p, admitted, exec, accepted), estimate, policy, limit)
  {
    ResultsSkipNothing(p, admitted, exec, accepted);
    ResultSets(p, admitted, exec, accepted);
    hide SkipsSay, AfterResults, Settles, Looping, Faithful, OutWith;
    SkipsStable(p, start, admitted, AfterResults(p, admitted, exec, accepted), estimate, policy, limit);
  }

  lemma GateGrows(p: Plan, start: RunStates, st: RunStates, next: RunStates, estimate: Estimator, policy: OversizePolicy, limit: u64,
                  order: seq<Dispatch>, batch: seq<Dispatch>, accepted: seq<Dispatch>)
    requires Gated(p, start, st, estimate, policy, limit, order) && SkipsSay(p, start, next, estimate, policy, limit)
    ensures Gated(p, start, next, estimate, policy, limit, order)
    ensures accepted == Admitted(estimate, policy, limit, batch) ==> Gated(p, start, next, estimate, policy, limit, order + accepted)
  {
    AdmittedWithin(estimate, policy, limit, batch);
    hide SkipsSay, Oversize, Admitted;
  }

  lemma GateParts(p: Plan, exec: Executor, start: RunStates, st: RunStates, admitted: RunStates, batch: seq<Dispatch>,
                  estimate: Estimator, policy: OversizePolicy, limit: u64, accepted: seq<Dispatch>, order: seq<Dispatch>)
    requires PlanOk(p) && Covers(p, start) && Kept(p, exec, start, st) && BatchOf(p, st, batch)
    requires AdmittedUpTo(p, Apply(p, st, NextBatch), admitted, estimate, policy, limit, batch, |batch|, accepted)
    requires Gated(p, start, st, estimate, policy, limit, order)
    ensures SkipsSay(p, start, admitted, estimate, policy, limit) && accepted == Admitted(estimate, policy, limit, batch)
  {
    assert batch[..|batch|] == batch;
    AdmittedSkips(p, exec, start, st, batch, estimate, policy, limit, |batch|);
  }

  lemma ExecutingParts(p: Plan, exec: Executor, start: RunStates, st: RunStates, admitted: RunStates, accepted: seq<Dispatch>)
    requires PlanOk(p) && Covers(p, start) && Executing(p, exec, start, st, admitted, accepted)
    ensures Ascending(DispatchIds(accepted)) && IdSet(accepted) <= RunningIds(admitted)
    ensures Kept(p, exec, start, admitted) && OutWith(p, start, admitted, accepted)
  {
  }

  lemma PaidConcat(exact: bool, limit: u64, atStart: u64, between: u64, consumed: u64, estimate: Estimator, a: seq<Dispatch>, b: seq<Dispatch>)
    requires Paid(exact, limit, atStart, between, estimate, a)
    requires Paid(exact && atStart <= limit, limit, between, consumed, estimate, b)
    ensures Paid(exact, limit, atStart, consumed, estimate, a + b)
  {
    ChargedConcat(estimate, a, b);
  }

  /** The books of a run: what was executed, what it was charged in bytes and in time, and what the gate did. */
  ghost predicate Accounted(p: Plan, start: RunStates, st: RunStates, exact: bool, limit: u64, atStart: Account, spent: Account,
                            estimate: Estimator, policy: OversizePolicy, elapsed: string -> u64, order: seq<Dispatch>)
  {
    && Ledger(p, start, st, order) && Gated(p, start, st, estimate, policy, limit, order)
    && Paid(exact, limit, atStart.bytes, spent.bytes, estimate, order) && Clocked(elapsed, atStart.wallClock, spent.wallClock, order)
  }

  lemma TurnAccounts(p: Plan, exec: Executor, start: RunStates, st: RunStates, admitted: RunStates, exact: bool, limit: u64,
                     atStart: Account, before: Account, after: Account, estimate: Estimator, policy: OversizePolicy,
                     elapsed: string -> u64, order: seq<Dispatch>, batch: seq<Dispatch>, accepted: seq<Dispatch>)
    requires PlanOk(p) && Covers(p, start) && Executing(p, exec, start, st, admitted, accepted) && Settles(p, exec, accepted)
    requires Accounted(p, start, st, exact, limit, atStart, before, estimate, policy, elapsed, order)
    requires SkipsSay(p, start, admitted, estimate, policy, limit) && accepted == Admitted(estimate, policy, limit, batch)
    requires Paid(exact && atStart.bytes <= limit, limit, before.bytes, after.bytes, estimate, accepted)
    requires Clocked(elapsed, before.wallClock, after.wallClock, accepted)
    ensures var next := AfterResults(p, admitted, exec, accepted);
            && Looping(p, exec, start, next) && |PendingIds(next)| < |PendingIds(st)|
            && Accounted(p, start, next, exact, limit, atStart, after, estimate, policy, elapsed, order + accepted)
  {
    hide Ledger, Gated, Paid, Clocked, Executing, Settles, SkipsSay, Admitted, AfterResults, Looping, PlanOk, Covers;
    TurnDone(p, exec, start, st, admitted, order, accepted);
    DoneSkips(p, exec, start, st, admitted, accepted, estimate, policy, limit);
    GateGrows(p, start, st, AfterResults(p, admitted, exec, accepted), estimate, policy, limit, order, batch, accepted);
    PaidConcat(exact, limit, atStart.bytes, before.bytes, after.bytes, estimate, order, accepted);
    ClockedConcat(elapsed, atStart.wallClock, before.wallClock, after.wallClock, order, accepted);
  }

  lemma StopAccounts(p: Plan, exec: Executor, start: RunStates, st: RunStates, final: RunStates, batch: seq<Dispatch>, exact: bool,
                     limit: u64, atStart: Account, spent: Account, estimate: Estimator, policy: OversizePolicy,
                     elapsed: string -> u64, n: nat, id: string, order: seq<Dispatch>)
    requires PlanOk(p) && Covers(p, start) && Kept(p, exec, start, st) && BatchOf(p, st, batch)
    requires StoppedAt(p, Apply(p, st, NextBatch), final, estimate, policy, limit, batch, n, id)
    requires Accounted(p, start, st, exact, limit, atStart, spent, estimate, policy, elapsed, order)
    ensures StoppedIn(p, st, final, estimate, policy, limit, n, id) && Kept(p, exec, start, final)
    ensures Accounted(p, start, final, exact, limit, atStart, spent, estimate, policy, elapsed, order)
  {
    hide Ledger, Gated, Paid, Clocked, Kept, BatchOf, StoppedAt, StoppedIn, PlanOk, Covers;
    TurnStopped(p, exec, start, st, final, batch, estimate, policy, limit, n, id, order);
    StopGated(p, exec, start, st, final, batch, estimate, policy, limit, n, id, order);
  }

  lemma AccountedParts(p: Plan, start: RunStates, st: RunStates, exact: bool, limit: u64, atStart: Account, spent: Account,
                       estimate: Estimator, policy: OversizePolicy, elapsed: string -> u64, order: seq<Dispatch>)
    requires Accounted(p, start, st, exact, limit, atStart, spent, estimate, policy, elapsed, order)
    ensures Ledger(p, start, st, order) && Gated(p, start, st, estimate, policy, limit, order)
    ensures Paid(exact, limit, atStart.bytes, spent.bytes, estimate, order)
    ensures Clocked(elapsed, atStart.wallClock, spent.wallClock, order)
  {
  }

  method FinishTurn(c: Coordinator, exec: Executor, ghost start: RunStates, ghost st: RunStates, ghost batch: seq<Dispatch>,
                    accepted: seq<Dispatch>, budget: Budget, estimate: Estimator, ghost policy: OversizePolicy,
                    elapsed: string -> u64, ghost exact: bool, ghost atStart: Account, ghost order: seq<Dispatch>)
    returns (r: Result<(), CoordinatorError>)
    requires c.Valid() && Covers(c.plan, start) && Executing(c.plan, exec, start, st, c.states, accepted)
    requires Accounted(c.plan, start, st, exact, budget.bytesLimit, atStart, budget.Spent(), estimate, policy, elapsed, order)
    requires SkipsSay(c.plan, start, c.states, estimate, policy, budget.bytesLimit)
    requires accepted == Admitted(estimate, policy, budget.bytesLimit, batch)
    requires Fits(exact && atStart.bytes <= budget.bytesLimit, budget.bytesLimit, budget.bytesConsumed, estimate, accepted)
    modifies c`states, budget
    ensures c.Valid()
    ensures r.Ok? ==> Looping(c.plan, exec, start, c.states) && |PendingIds(c.states)| < |PendingIds(st)|
    ensures r.Ok? ==> Accounted(c.plan, start, c.states, exact, budget.bytesLimit, atStart, budget.Spent(), estimate, policy, elapsed, order + accepted)
    ensures r.Err? ==> FailedBy(c.plan, exec, start, r.error)
  {
    ghost var admitted, before := c.states, budget.Spent();
    assert PlanOk(c.plan) && before == Account(budget.wallClockConsumed, budget.bytesConsumed);
    ExecutingParts(c.plan, exec, start, st, admitted, accepted);
    hide *;
    ghost var n;
    r, n := ExecuteAccepted(c, exec, accepted, budget, estimate, exact && atStart.bytes <= budget.bytesLimit, elapsed);
    if r.Err? {
      ForeignIsStuck(c.plan, exec, start, admitted, accepted, n);
      return;
    }
    assert accepted[..|accepted|] == accepted;
    SpentParts(budget);
    TurnAccounts(c.plan, exec, start, st, admitted, exact, budget.bytesLimit, atStart, before, budget.Spent(), estimate, policy,
                 elapsed, order, batch, accepted);
  }

  lemma SpentParts(budget: Budget)
    ensures budget.Spent() == Account(budget.wallClockConsumed, budget.bytesConsumed)
  {
  }

  /** Runs under a budget until every node is terminal or the budget stops the run. */
  method RunToCompletion(c: Coordinator, exec: Executor, budget: Budget, estimate: Estimator, policy: OversizePolicy, elapsed: string -> u64)
    returns (r: Result<BudgetedRun, CoordinatorError>, ghost executed: seq<Dispatch>, ghost last: RunStates, ghost n: nat)
    requires c.Valid() && policy.Valid()
    modifies c`states, budget
    ensures c.Valid()
    // Errors: something left over from before, or an executor answering with a foreign artifact.
    ensures r.Err? ==> RunError(c.plan, exec, old(c.states), r.error)
    // From a new or resumed coordinator, an executor that keeps to the snapshot never makes the run fail.
    ensures !LeftOver(old(c.states)) && Loyal(c.plan.spec.snapshotIdentity, exec) ==> r.Ok?
    // The report describes the final states and the final accounts.
    ensures r.Ok? ==> r.value == ReportOf(c.plan, c.states, budget, policy, r.value.budget.stoppedAt)
    // Results are those an unbudgeted run would have recorded, each node executed once on its final inputs.
    ensures r.Ok? ==> Kept(c.plan, exec, old(c.states), c.states) && Ledger(c.plan, old(c.states), c.states, executed)
    // Bytes charged are the estimates of what was executed, and never exceed the limit.
    ensures r.Ok? ==> Paid(GuardExact(policy, budget.bytesLimit), budget.bytesLimit, old(budget.bytesConsumed), budget.bytesConsumed, estimate, executed)
    // Time charged is what each execution took, one second at least, modulo the word.
    ensures r.Ok? ==> Clocked(elapsed, old(budget.wallClockConsumed), budget.wallClockConsumed, executed)
    // What was skipped was oversize on its final inputs, and is stored with its size and the limit; nothing executed was oversize.
    ensures r.Ok? ==> Gated(c.plan, old(c.states), c.states, estimate, policy, budget.bytesLimit, executed)
    // Without a stop every node is terminal and nothing was refused; with one, exactly the accepted dispatches of its batch are left running.
    ensures r.Ok? && r.value.budget.stoppedAt.None? ==> AllTerminal(c.states) && RefusedIds(c.states) == RefusedIds(old(c.states))
    ensures r.Ok? && r.value.budget.stoppedAt.Some? ==>
      RunningIds(last) == RunningIds(old(c.states)) && Kept(c.plan, exec, old(c.states), last)
    ensures r.Ok? && r.value.budget.stoppedAt.Some? ==>
      StoppedIn(c.plan, last, c.states, estimate, policy, budget.bytesLimit, n, r.value.budget.stoppedAt.value)
    // A stop happens where the estimates no longer fit what the run has left, and nowhere else.
    ensures r.Ok? && r.value.budget.stoppedAt.Some? ==> TurnAt(c.plan, last, budget, budget.Spent(), estimate, policy, n, true)
    ensures !AllTerminal(old(c.states)) ==> forall m :: TurnAt(c.plan, old(c.states), budget, old(budget.Spent()), estimate, policy, m, true) ==>
              r.Ok? && r.value.budget.stoppedAt.Some? && last == old(c.states) && n == m
    // From a new or resumed coordinator, completed means that every node succeeded with a known verdict.
    ensures r.Ok? && !LeftOver(old(c.states)) ==> (r.value.manifest.outcome == Completed <==> AllSatisfied(c.states))
    // From a new coordinator, what is stored is what was answered, and completed means that every node was answered with a success.
    ensures r.Ok? && old(c.states) == Unstarted(c.plan) ==> AnswersKept(c.plan, exec, c.states)
    ensures r.Ok? && old(c.states) == Unstarted(c.plan) ==> (r.value.manifest.outcome == Completed <==> AllRanWell(c.plan, exec, c.states))
  {
    ghost var start, atStart, exact := c.states, budget.Spent(), GuardExact(policy, budget.bytesLimit);
    var stoppedAt: Option<string> := None;
    ghost var first, n1, stops := true, 0, false;
    executed, last, n := [], c.states, 0;
    SpentParts(budget);
    assert PlanOk(c.plan) && Stable(c.plan, start) && Covers(c.plan, start);
    hide *;
    LoopStarts(c.plan, exec, start, exact, budget.bytesLimit, atStart, estimate, policy, elapsed);
    while !AllTerminal(c.states) && stoppedAt.None?
      invariant c.Valid() && Kept(c.plan, exec, start, c.states)
      invariant Accounted(c.plan, start, c.states, exact, budget.bytesLimit, atStart, budget.Spent(), estimate, policy, elapsed, executed)
      invariant stoppedAt.None? ==> Looping(c.plan, exec, start, c.states)
      invariant stoppedAt.Some? ==> RunningIds(last) == RunningIds(start) && Kept(c.plan, exec, start, last)
      invariant stoppedAt.Some? ==> StoppedIn(c.plan, last, c.states, estimate, policy, budget.bytesLimit, n, stoppedAt.value)
      invariant stoppedAt.Some? ==> TurnAt(c.plan, last, budget, budget.Spent(), estimate, policy, n, true)
      invariant first ==> c.states == start && budget.Spent() == atStart && stoppedAt.None?
      invariant !first ==> TurnAt(c.plan, start, budget, atStart, estimate, policy, n1, stops)
      invariant !first && stops ==> stoppedAt.Some? && last == start && n == n1
      decreases stoppedAt.None?, |PendingIds(c.states)|
    {
      last := c.states;
      var turn;
      turn, executed, n := RunTurn(c, exec, start, budget, estimate, policy, elapsed, exact, atStart, executed);
      if first {
        first, n1, stops := false, n, turn.Ok? && turn.value.Some?;
      }
      StopDecided(c.plan, start, budget, atStart, estimate, policy, n1, stops);
      if turn.Err? {
        LoyalNoError(c.plan, exec, start, turn.error);
        r := Err(turn.error);
        return;
      }
      stoppedAt := turn.value;
      TurnEndsParts(c.plan, exec, start, last, c.states, estimate, policy, budget.bytesLimit, n, stoppedAt);
    }
    if !first {
      StopDecided(c.plan, start, budget, atStart, estimate, policy, n1, stops);
    }
    SpentParts(budget);
    AccountedParts(c.plan, start, c.states, exact, budget.bytesLimit, atStart, budget.Spent(), estimate, policy, elapsed, executed);
    LoopEnds(c.plan, exec, start, last, c.states, estimate, policy, budget.bytesLimit, n, stoppedAt);
    if start == Unstarted(c.plan) {
      NewRunRanWell(c.plan, exec, c.states);
    }
    ReportParts(c.plan, c.states, budget, policy, stoppedAt);
    r := Ok(ReportOf(c.plan, c.states, budget, policy, stoppedAt));
  }

  /** What the end of the loop means for the refused nodes and the outcome. */
  lemma LoopEnds(p: Plan, exec: Executor, start: RunStates, last: RunStates, final: RunStates, estimate: Estimator,
                 policy: OversizePolicy, limit: u64, n: nat, stoppedAt: Option<string>)
    requires PlanOk(p) && Covers(p, start) && Kept(p, exec, start, final)
    requires stoppedAt.None? ==> Looping(p, exec, start, final)
    requires stoppedAt.Some? ==> StoppedIn(p, last, final, estimate, policy, limit, n, stoppedAt.value)
    ensures stoppedAt.None? ==> RefusedIds(final) == RefusedIds(start)
    ensures !LeftOver(start) ==> (BudgetedOutcome(final, stoppedAt.Some?) == Completed <==> AllSatisfied(final))
  {
    hide BudgetedOutcome, AllSatisfied, Faithful, AcceptedBefore, BatchIds;
    if !LeftOver(start) {
      FreshOutcome(p, start, final, stoppedAt);
    }
  }

  lemma ReportParts(p: Plan, st: RunStates, budget: Budget, policy: OversizePolicy, stoppedAt: Option<string>)
    ensures var run := ReportOf(p, st, budget, policy, stoppedAt);
            run.manifest.outcome == BudgetedOutcome(st, stoppedAt.Some?) && run.budget.stoppedAt == stoppedAt
  {
    hide BudgetedOutcome, SkippedNodes;
  }

  lemma GatedNone(p: Plan, start: RunStates, estimate: Estimator, policy: OversizePolicy, limit: u64)
    ensures Gated(p, start, start, estimate, policy, limit, [])
  {
  }

  lemma LoopStarts(p: Plan, exec: Executor, start: RunStates, exact: bool, limit: u64, atStart: Account, estimate: Estimator,
                   policy: OversizePolicy, elapsed: string -> u64)
    requires PlanOk(p) && Stable(p, start)
    ensures Kept(p, exec, start, start) && Looping(p, exec, start, start)
    ensures Accounted(p, start, start, exact, limit, atStart, atStart, estimate, policy, elapsed, [])
  {
    FaithfulStart(p, exec, start);
    ClockedNone(elapsed, atStart.wallClock);
    GatedNone(p, start, estimate, policy, limit);
    hide Clocked, Gated, Faithful;
  }

  /** Whether and where the turn due in a state stops is decided. */
  lemma StopDecided(p: Plan, st: RunStates, budget: Budget, spent: Account, estimate: Estimator, policy: OversizePolicy, n: nat, stopped: bool)
    requires TurnAt(p, st, budget, spent, estimate, policy, n, stopped)
    ensures forall m :: TurnAt(p, st, budget, spent, estimate, policy, m, true) ==> stopped && m == n
  {
    forall m | TurnAt(p, st, budget, spent, estimate, policy, m, true) ensures stopped && m == n {
      TurnedOnce(budget, spent, estimate, policy, Due(p, st), n, stopped, m, true);
    }
  }

  /** Every node was executed, and its dispatch answered with a success and a known verdict. */
  ghost predicate AllRanWell(p: Plan, exec: Executor, st: RunStates) {
    forall id :: id in st && id in p.nodes && id in p.deps ==> st[id].Executed() && AnsweredWell(exec(DispatchFor(p, st, id)))
  }

  lemma NewRunRanWell(p: Plan, exec: Executor, st: RunStates)
    requires PlanOk(p) && Kept(p, exec, Unstarted(p), st)
    ensures AnswersKept(p, exec, st) && !LeftOver(Unstarted(p)) && (AllSatisfied(st) <==> AllRanWell(p, exec, st))
  {
    FaithfulAnswers(p, exec, st);
    forall id | id in st
      ensures st[id].Executed() && AnsweredWell(exec(DispatchFor(p, st, id))) <==> st[id].Succeeded? && st[id].verdict != Unknown
    {
      WellAnsweredNode(p, exec, st, id);
      assert NodeOk(p, st, id);
    }
    hide Faithful, AnswersKept, DispatchFor, Settled, PlanOk, NodeOk;
  }

  function ReportOf(p: Plan, st: RunStates, budget: Budget, policy: OversizePolicy, stoppedAt: Option<string>): BudgetedRun
    reads budget
  {
    BudgetedRun(ManifestOf(p, st).(outcome := BudgetedOutcome(st, stoppedAt.Some?)),
                BudgetReport(budget.wallClockLimit, budget.bytesLimit, budget.wallClockConsumed, budget.bytesConsumed,
                             stoppedAt.Some? || budget.Exceeded(), stoppedAt, policy.thresholdPercent, SkippedNodes(st)))
  }

  /** When the outcome is the budget's own: after a stop, or when the coordinator would call a run with skipped nodes completed. */
  ghost predicate Overridden(st: RunStates, stopped: bool) {
    || stopped
    || (&& (exists id :: id in st && st[id].SkippedOversize?)
        && forall id :: id in st ==> !st[id].TimedOut? && !st[id].ProcessFailed? && !st[id].DomainFailed? && !HeldUnknown(st[id]))
  }

  /** Then it is budget stopped if some node ran to an end other than a timeout, and failed otherwise; else it is the coordinator's. */
  lemma OutcomeReported(st: RunStates, stopped: bool)
    requires stopped || AllTerminal(st)
    ensures var ran := exists id :: id in st && (st[id].Succeeded? || st[id].DomainFailed? || st[id].ProcessFailed?);
            if Overridden(st, stopped) then BudgetedOutcome(st, stopped) == if ran then BudgetStopped else Failed
            else BudgetedOutcome(st, stopped) == OutcomeOf(st)
  {
    if !stopped {
      OutcomeRanks(st);
    }
  }

  /** What the report says: the states as they are, the accounts as they are, whether a limit was passed, and every skipped node
      with its sizes, once, in id order. */
  lemma ReportSays(p: Plan, st: RunStates, budget: Budget, policy: OversizePolicy, stoppedAt: Option<string>)
    ensures var run := ReportOf(p, st, budget, policy, stoppedAt);
            var ids := seq(|run.budget.skippedNodes|, i requires 0 <= i < |run.budget.skippedNodes| => run.budget.skippedNodes[i].nodeId);
            && run.manifest.nodes == st && run.manifest.snapshotIdentity == p.spec.snapshotIdentity
            && run.manifest.runIdentity == Canonical(p.spec)
            && run.budget.wallClockLimit == budget.wallClockLimit && run.budget.bytesLimit == budget.bytesLimit
            && run.budget.wallClockConsumed == budget.wallClockConsumed && run.budget.bytesConsumed == budget.bytesConsumed
            && run.budget.stoppedAt == stoppedAt && run.budget.thresholdPercent == policy.thresholdPercent
            && (run.budget.exceeded <==> stoppedAt.Some? || budget.wallClockConsumed > budget.wallClockLimit
                                         || budget.bytesConsumed > budget.bytesLimit)
            && Ascending(ids)
            && (forall id :: id in ids <==> id in st && st[id].SkippedOversize?)
            && (forall i :: 0 <= i < |ids| ==>
                  var skipped := run.budget.skippedNodes[i];
                  && ids[i] in st && st[ids[i]].SkippedOversize? && skipped.actualBytes == st[ids[i]].actualBytes
                  && skipped.byteLimit == st[ids[i]].byteLimit)
  {
    var run := ReportOf(p, st, budget, policy, stoppedAt);
    var ids := Ascend(SkippedIds(st));
    assert seq(|run.budget.skippedNodes|, i requires 0 <= i < |run.budget.skippedNodes| => run.budget.skippedNodes[i].nodeId) == ids;
    assert forall i :: 0 <= i < |ids| ==> ids[i] in ids;
  }

  lemma FreshOutcome(p: Plan, start: RunStates, st: RunStates, stoppedAt: Option<string>)
    requires PlanOk(p) && Inv(p, st) && !LeftOver(start)
    requires stoppedAt.None? ==> RefusedIds(st) == RefusedIds(start)
    requires stoppedAt.Some? ==> stoppedAt.value in RefusedIds(st)
    ensures BudgetedOutcome(st, stoppedAt.Some?) == Completed <==> AllSatisfied(st)
  {
    assert RefusedIds(start) == {};
    HonestOutcome(p, st, stoppedAt.Some?);
  }

  /** With one slot a stop leaves nothing running: the batch it stops in has no dispatch before the stopped one. */
  lemma SerialStopsClean(p: Plan, last: RunStates, final: RunStates, estimate: Estimator, policy: OversizePolicy, limit: u64, n: nat, id: string)
    requires p.spec.maxConcurrency == 1 && RunningIds(last) == {}
    requires StoppedIn(p, last, final, estimate, policy, limit, n, id)
    ensures RunningIds(final) == {}
  {
    BatchMembers(p, last);
  }
}
