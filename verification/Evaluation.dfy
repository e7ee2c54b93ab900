/** What a run must end in: a recursive evaluator over the dependency graph that knows nothing of scheduling. */
module Evaluation {
  import opened Lexical
  import opened Acyclicity
  import opened Text
  import opened Specification
  import opened States
  import opened Blocking
  import opened Operations

  /** A final state with the block list erased, or Stuck for a node no run can bring to a terminal state. */
  datatype Status = Known(state: NodeState) | Blocked | Stuck
  {
    predicate Blocks() {
      Blocked? || (Known? && state.Blocks())
    }

    predicate Succeeds() {
      Known? && state.Succeeded?
    }
  }

  function StatusOf(s: NodeState): Status {
    if s.DependencyBlocked? then Blocked else Known(s)
  }

  /** The states among some dependency statuses, as a dispatch sees them. */
  function KnownStates(fates: map<string, Status>): RunStates {
    map d | d in fates && fates[d].Known? :: fates[d].state
  }

  /** The status of a node whose dependencies have the given statuses and which has not started yet. */
  function FateFrom(p: Plan, exec: Executor, id: string, fates: map<string, Status>): Status
    requires id in p.nodes && id in p.deps
  {
    if exists d :: d in p.deps[id] && d in fates && fates[d].Blocks() then Blocked
    else if forall d :: d in p.deps[id] ==> d in fates && fates[d].Succeeds() then
      match Settle(p.spec.snapshotIdentity, exec(DispatchFor(p, KnownStates(fates), id)))
      case Some(s) => Known(s)
      case None => Stuck
    else Stuck
  }

  /** The status every run from `start` must give a node. */
  ghost function Fate(p: Plan, exec: Executor, start: RunStates, id: string): Status
    requires PlanOk(p) && Covers(p, start) && id in start
    decreases RankOf(p.deps)[id]
  {
    if start[id].Running? then Stuck
    else if start[id].Terminal() then StatusOf(start[id])
    else FateFrom(p, exec, id, map d | d in p.deps[id] :: Fate(p, exec, start, d))
  }

  ghost predicate NoneStuck(p: Plan, exec: Executor, start: RunStates)
    requires PlanOk(p) && Covers(p, start)
  {
    forall id :: id in start ==> !Fate(p, exec, start, id).Stuck?
  }

  ghost function DepFates(p: Plan, exec: Executor, start: RunStates, id: string): map<string, Status>
    requires PlanOk(p) && Covers(p, start) && id in start
  {
    map d | d in p.deps[id] :: Fate(p, exec, start, d)
  }

  /** The run so far: finished nodes have their final status, the rest had not finished at the start. */
  ghost predicate Agrees(p: Plan, exec: Executor, start: RunStates, st: RunStates)
    requires PlanOk(p) && Covers(p, start)
  {
    && Covers(p, st)
    && forall id {:trigger AgreesAt(p, exec, start, st, id)} :: id in st ==> AgreesAt(p, exec, start, st, id)
  }

  ghost predicate AgreesAt(p: Plan, exec: Executor, start: RunStates, st: RunStates, id: string)
    requires PlanOk(p) && Covers(p, start) && Covers(p, st) && id in st
  {
    && (st[id].Terminal() ==> Fate(p, exec, start, id) == StatusOf(st[id]))
    && (!st[id].Terminal() ==> !start[id].Terminal())
    && (st[id].Pending? ==> start[id].Pending?)
  }

  lemma AgreesStart(p: Plan, exec: Executor, start: RunStates)
    requires PlanOk(p) && Covers(p, start)
    ensures Agrees(p, exec, start, start)
  {
  }

  lemma DepAgrees(p: Plan, exec: Executor, start: RunStates, st: RunStates, id: string, d: string)
    requires PlanOk(p) && Covers(p, start) && Agrees(p, exec, start, st) && id in st && d in p.deps[id]
    requires d in st && st[d].Terminal()
    ensures DepFates(p, exec, start, id)[d] == StatusOf(st[d])
  {
    assert AgreesAt(p, exec, start, st, d);
  }

  lemma BlockableFate(p: Plan, exec: Executor, start: RunStates, st: RunStates, id: string)
    requires PlanOk(p) && Covers(p, start) && Agrees(p, exec, start, st) && Blockable(p, st, id)
    ensures Fate(p, exec, start, id) == Blocked
  {
    var blockers := BlockingAmong(st, p.deps[id]);
    BlockingAmongMembers(st, p.deps[id]);
    assert blockers[0] in blockers;
    DepAgrees(p, exec, start, st, id, blockers[0]);
    assert AgreesAt(p, exec, start, st, id);
    assert DepFates(p, exec, start, id)[blockers[0]].Blocks();
  }

  lemma {:induction false} AgreesPropagate(p: Plan, exec: Executor, start: RunStates, st: RunStates)
    requires PlanOk(p) && Covers(p, start) && Agrees(p, exec, start, st)
    ensures Agrees(p, exec, start, Propagate(p, st))
    decreases |PendingIds(st)|
  {
    if !Settled(p, st) {
      var x :| x in st && Blockable(p, st, x);
      BlockRoundShrinks(p, st, x);
      var next := BlockRound(p, st);
      forall id | id in next ensures AgreesAt(p, exec, start, next, id) {
        assert AgreesAt(p, exec, start, st, id);
        if Blockable(p, st, id) {
          BlockableFate(p, exec, start, st, id);
        }
      }
      AgreesPropagate(p, exec, start, next);
    }
  }

  lemma FateFromSucceeded(p: Plan, exec: Executor, id: string, fates: map<string, Status>, st: RunStates)
    requires id in p.nodes && id in p.deps && AllSucceeded(st, p.deps[id])
    requires forall d :: d in p.deps[id] ==> d in fates && fates[d] == Known(st[d])
    ensures var settled := Settle(p.spec.snapshotIdentity, exec(DispatchFor(p, st, id)));
            FateFrom(p, exec, id, fates) == if settled.Some? then Known(settled.value) else Stuck
  {
    InputsAgree(KnownStates(fates), st, p.deps[id]);
    assert forall d :: d in p.deps[id] ==> !fates[d].Blocks() && fates[d].Succeeds();
  }

  /** A node started from succeeded dependencies gets exactly what its recorded outcome settles to. */
  lemma ExecutedFate(p: Plan, exec: Executor, start: RunStates, st: RunStates, id: string)
    requires PlanOk(p) && Covers(p, start) && Agrees(p, exec, start, st)
    requires id in st && start[id].Pending? && AllSucceeded(st, p.deps[id])
    ensures var settled := Settle(p.spec.snapshotIdentity, exec(DispatchFor(p, st, id)));
            Fate(p, exec, start, id) == if settled.Some? then Known(settled.value) else Stuck
  {
    var fates := DepFates(p, exec, start, id);
    forall d | d in p.deps[id] ensures d in fates && fates[d] == Known(st[d]) {
      DepAgrees(p, exec, start, st, id, d);
    }
    FateFromSucceeded(p, exec, id, fates, st);
  }

  lemma AgreesRecord(p: Plan, exec: Executor, start: RunStates, st: RunStates, id: string, s: NodeState)
    requires PlanOk(p) && Covers(p, start) && Agrees(p, exec, start, st) && Inv(p, st)
    requires IsRunning(st, id) && start[id].Pending?
    requires Settle(p.spec.snapshotIdentity, exec(DispatchFor(p, st, id))) == Some(s)
    ensures Agrees(p, exec, start, st[id := s])
  {
    var next := st[id := s];
    assert NodeOk(p, st, id);
    ExecutedFate(p, exec, start, st, id);
    SettleSound(p.spec.snapshotIdentity, exec(DispatchFor(p, st, id)));
    forall x | x in next ensures AgreesAt(p, exec, start, next, x) {
      assert AgreesAt(p, exec, start, st, x);
    }
  }

  lemma AgreesStarting(p: Plan, exec: Executor, start: RunStates, st: RunStates, ids: seq<string>)
    requires PlanOk(p) && Covers(p, start) && Agrees(p, exec, start, st)
    requires forall id :: id in ids ==> id in ReadyIds(p, st)
    ensures Agrees(p, exec, start, Start(st, ids))
  {
    var next := Start(st, ids);
    forall x | x in next ensures AgreesAt(p, exec, start, next, x) {
      assert AgreesAt(p, exec, start, st, x);
    }
  }

  /** The input a started node was given does not change while others finish. */
  lemma DispatchStable(p: Plan, before: RunStates, after: RunStates, id: string)
    requires Covers(p, before) && Grows(before, after) && id in before && AllSucceeded(before, p.deps[id])
    ensures AllSucceeded(after, p.deps[id])
    ensures DispatchFor(p, after, id) == DispatchFor(p, before, id)
  {
    InputsAgree(before, after, p.deps[id]);
  }

  /** A pending node that is neither blockable nor ready, over terminal dependencies, waits on a refused one. */
  lemma WaitsOnRefused(p: Plan, exec: Executor, start: RunStates, st: RunStates, id: string) returns (refused: string)
    requires PlanOk(p) && Covers(p, start) && Agrees(p, exec, start, st)
    requires id in st && st[id].Pending? && !Blockable(p, st, id) && id !in ReadyIds(p, st)
    requires forall d :: d in p.deps[id] ==> d in st && st[d].Terminal()
    ensures Fate(p, exec, start, id) == Stuck
    ensures refused in st && st[refused].NotDispatched?
  {
    var fates := DepFates(p, exec, start, id);
    BlockingAmongMembers(st, p.deps[id]);
    forall d | d in p.deps[id] ensures fates[d] == Known(st[d]) && !st[d].Blocks() {
      DepAgrees(p, exec, start, st, id, d);
    }
    assert AgreesAt(p, exec, start, st, id);
    refused :| refused in p.deps[id] && !st[refused].Succeeded?;
    assert !fates[refused].Succeeds();
  }

  /** In a settled state without ready or running nodes, some pending node is stuck on a refused one. */
  lemma {:induction false} StuckBelow(p: Plan, exec: Executor, start: RunStates, st: RunStates, id: string)
    returns (culprit: string, refused: string)
    requires PlanOk(p) && Covers(p, start) && Agrees(p, exec, start, st)
    requires Settled(p, st) && RunningIds(st) == {} && ReadyIds(p, st) == {}
    requires id in st && st[id].Pending?
    ensures culprit in start && Fate(p, exec, start, culprit) == Stuck
    ensures refused in st && st[refused].NotDispatched?
    decreases RankOf(p.deps)[id]
  {
    if d :| d in p.deps[id] && d in st && st[d].Pending? {
      culprit, refused := StuckBelow(p, exec, start, st, d);
    } else {
      assert forall d :: d in p.deps[id] ==> d in st && d !in RunningIds(st);
      assert !Blockable(p, st, id) && id !in ReadyIds(p, st);
      culprit := id;
      refused := WaitsOnRefused(p, exec, start, st, id);
    }
  }

  lemma FateFromShape(p: Plan, exec: Executor, id: string, fates: map<string, Status>)
    requires id in p.nodes && id in p.deps
    ensures FateFrom(p, exec, id, fates).Known? ==> FateFrom(p, exec, id, fates).state.Executed()
  {
    var outcome := exec(DispatchFor(p, KnownStates(fates), id));
    if Settle(p.spec.snapshotIdentity, outcome).Some? {
      SettleSound(p.spec.snapshotIdentity, outcome);
    }
  }

  /** A run refuses nothing by itself: a refused node was refused before the run started. */
  lemma RefusedBefore(p: Plan, exec: Executor, start: RunStates, st: RunStates, id: string)
    requires PlanOk(p) && Covers(p, start) && Agrees(p, exec, start, st)
    requires id in st && (st[id].NotDispatched? || st[id].SkippedOversize?)
    ensures start[id] == st[id]
  {
    assert AgreesAt(p, exec, start, st, id);
    assert Fate(p, exec, start, id) == Known(st[id]);
    if start[id].Pending? {
      FateFromShape(p, exec, id, DepFates(p, exec, start, id));
      assert Fate(p, exec, start, id) == FateFrom(p, exec, id, DepFates(p, exec, start, id));
    }
  }

  /** Only an attempt still running, or a refusal, from before the run can leave it without schedulable work. */
  ghost predicate LeftOver(start: RunStates) {
    exists id :: id in start && (start[id].Running? || start[id].NotDispatched?)
  }

  /** No schedulable work while nodes are unfinished means some node was stuck from the start. */
  lemma NoWorkMeansStuck(p: Plan, exec: Executor, start: RunStates, st: RunStates)
    requires PlanOk(p) && Covers(p, start) && Agrees(p, exec, start, st) && Settled(p, st)
    requires RunningIds(st) <= RunningIds(start) && BatchIds(p, st) == [] && !AllTerminal(st)
    ensures !NoneStuck(p, exec, start) && LeftOver(start)
  {
    if id :| id in RunningIds(st) {
      assert id in RunningIds(start);
      assert Fate(p, exec, start, id) == Stuck;
    } else {
      var id :| id in st && !st[id].Terminal();
      assert RunningIds(st) == {} && id !in RunningIds(st);
      assert ReadyIds(p, st) == {} by {
        assert |Ascend(ReadyIds(p, st))| == 0;
      }
      var culprit, refused := StuckBelow(p, exec, start, st, id);
      RefusedBefore(p, exec, start, st, refused);
    }
  }

  /** The executor attaches only artifacts of the snapshot. */
  ghost predicate Loyal(snapshot: string, exec: Executor) {
    forall d: Dispatch :: Carries(snapshot, exec(d))
  }

  predicate Carries(snapshot: string, outcome: NodeOutcome) {
    match outcome
    case Success(_, artifacts) => Bound(snapshot, artifacts)
    case DomainFail(_, artifacts) => Bound(snapshot, artifacts)
    case _ => true
  }

  /** An answer can be recorded exactly when everything it carries is bound to the snapshot. */
  lemma SettlesExactly(snapshot: string, outcome: NodeOutcome)
    ensures Settle(snapshot, outcome).Some? <==> Carries(snapshot, outcome)
  {
  }

  /** How an answer is kept: a success with its verdict and artifacts, a failing verdict as a domain failure, and every failure as
      what it was, with its own diagnostic unless that is blank. */
  predicate StoredAs(outcome: NodeOutcome, s: NodeState) {
    match outcome
    case Success(verdict, artifacts) =>
      if verdict == Fail then s.DomainFailed? && s.artifacts == artifacts else s == Succeeded(verdict, artifacts)
    case DomainFail(diagnostic, artifacts) =>
      s.DomainFailed? && s.artifacts == artifacts && (!IsBlank(diagnostic) ==> s.diagnostic == diagnostic)
    case Timeout(diagnostic) =>
      s.TimedOut? && (!IsBlank(diagnostic) ==> s.diagnostic == diagnostic)
    case ProcessFailure(failure, diagnostic) =>
      s.ProcessFailed? && s.failure == failure && (!IsBlank(diagnostic) ==> s.diagnostic == diagnostic)
  }

  lemma SettleStores(snapshot: string, outcome: NodeOutcome)
    requires Settle(snapshot, outcome).Some?
    ensures StoredAs(outcome, Settle(snapshot, outcome).value)
  {
  }

  /** What a recorded node holds, read off the answer alone. */
  lemma RecordedAs(p: Plan, st: RunStates, id: string, outcome: NodeOutcome)
    ensures var next := Apply(p, st, Record(id, outcome));
            if IsRunning(st, id) && Carries(p.spec.snapshotIdentity, outcome) then id in next && StoredAs(outcome, next[id])
            else next == st
  {
    var snapshot := p.spec.snapshotIdentity;
    SettlesExactly(snapshot, outcome);
    if IsRunning(st, id) && Settle(snapshot, outcome).Some? {
      var s := Settle(snapshot, outcome).value;
      SettleStores(snapshot, outcome);
      SettleSound(snapshot, outcome);
      PropagateGrows(p, st[id := s]);
    }
  }

  /** Every node that was executed holds the executor's answer to the dispatch its dependencies now make. */
  ghost predicate AnswersKept(p: Plan, exec: Executor, st: RunStates) {
    forall id :: id in st && id in p.nodes && id in p.deps && st[id].Executed() ==> StoredAs(exec(DispatchFor(p, st, id)), st[id])
  }

  predicate AnsweredWell(outcome: NodeOutcome) {
    outcome.Success? && (outcome.verdict == Pass || outcome.verdict == NotApplicable)
  }

  ghost predicate AllAnsweredWell(p: Plan, exec: Executor, st: RunStates) {
    forall id :: id in p.nodes && id in p.deps ==> AnsweredWell(exec(DispatchFor(p, st, id)))
  }

  /** From a new coordinator a node's known status is one an executor produced. */
  lemma NewFateExecuted(p: Plan, exec: Executor, id: string)
    requires PlanOk(p) && Covers(p, Unstarted(p)) && id in p.nodes
    ensures Fate(p, exec, Unstarted(p), id).Known? ==> Fate(p, exec, Unstarted(p), id).state.Executed()
  {
    FatePending(p, exec, Unstarted(p), id);
    FateFromShape(p, exec, id, DepFates(p, exec, Unstarted(p), id));
  }

  lemma EndedAsFate(p: Plan, exec: Executor, id: string, s: NodeState)
    requires PlanOk(p) && Covers(p, Unstarted(p)) && id in p.nodes && StatusOf(s) == Fate(p, exec, Unstarted(p), id)
    ensures FaithfulAt(p, exec, Unstarted(p), id, s) && !s.NotDispatched? && !s.SkippedOversize?
  {
    NewFateExecuted(p, exec, id);
    hide Fate, PlanOk, Covers;
  }

  lemma FaithfulAnswers(p: Plan, exec: Executor, st: RunStates)
    requires PlanOk(p) && Inv(p, st) && Faithful(p, exec, Unstarted(p), st)
    ensures AnswersKept(p, exec, st)
  {
    forall id | id in st && st[id].Executed() ensures StoredAs(exec(DispatchFor(p, st, id)), st[id]) {
      assert NodeOk(p, st, id) && FaithfulAt(p, exec, Unstarted(p), id, st[id]);
      hide Inv, Faithful, Fate;
      FaithfulFate(p, exec, Unstarted(p), st, id);
      SettleStores(p.spec.snapshotIdentity, exec(DispatchFor(p, st, id)));
    }
  }

  /** With a loyal executor and nothing left over, a node ends succeeded or blocking. */
  lemma {:induction false} LoyalDecides(p: Plan, exec: Executor, start: RunStates, id: string)
    requires PlanOk(p) && Covers(p, start) && id in start
    requires Loyal(p.spec.snapshotIdentity, exec) && !LeftOver(start)
    ensures Fate(p, exec, start, id).Succeeds() || Fate(p, exec, start, id).Blocks()
    decreases RankOf(p.deps)[id]
  {
    if start[id].Pending? {
      var fates := DepFates(p, exec, start, id);
      forall d | d in p.deps[id] ensures d in fates && (fates[d].Succeeds() || fates[d].Blocks()) {
        LoyalDecides(p, exec, start, d);
      }
      FatePending(p, exec, start, id);
      FateFromDecided(p, exec, id, fates);
    }
  }

  lemma FateFromDecided(p: Plan, exec: Executor, id: string, fates: map<string, Status>)
    requires id in p.nodes && id in p.deps && Loyal(p.spec.snapshotIdentity, exec)
    requires forall d :: d in p.deps[id] ==> d in fates && (fates[d].Succeeds() || fates[d].Blocks())
    ensures FateFrom(p, exec, id, fates).Succeeds() || FateFrom(p, exec, id, fates).Blocks()
  {
    var outcome := exec(DispatchFor(p, KnownStates(fates), id));
    SettlesExactly(p.spec.snapshotIdentity, outcome);
    if Settle(p.spec.snapshotIdentity, outcome).Some? {
      SettleSound(p.spec.snapshotIdentity, outcome);
    }
  }

  /** With a loyal executor and nothing left over, every node has a final status. */
  lemma LoyalNoneStuck(p: Plan, exec: Executor, start: RunStates)
    requires PlanOk(p) && Covers(p, start)
    requires Loyal(p.spec.snapshotIdentity, exec) && !LeftOver(start)
    ensures NoneStuck(p, exec, start)
  {
    forall id | id in start ensures !Fate(p, exec, start, id).Stuck? {
      LoyalDecides(p, exec, start, id);
    }
  }

  lemma FatePending(p: Plan, exec: Executor, start: RunStates, id: string)
    requires PlanOk(p) && Covers(p, start) && id in start && start[id].Pending?
    ensures Fate(p, exec, start, id) == FateFrom(p, exec, id, DepFates(p, exec, start, id))
  {
  }

  /** Two starts that leave a node pending and agree on its dependencies agree on the node. */
  lemma FateFromDeps(p: Plan, exec: Executor, a: RunStates, b: RunStates, id: string)
    requires PlanOk(p) && Covers(p, a) && Covers(p, b) && id in a && a[id].Pending? && b[id].Pending?
    requires DepFates(p, exec, a, id) == DepFates(p, exec, b, id)
    ensures Fate(p, exec, a, id) == Fate(p, exec, b, id)
  {
    FatePending(p, exec, a, id);
    FatePending(p, exec, b, id);
  }

  /** The concurrency bound plays no part in what a run ends in. */
  lemma {:induction false} FateIgnoresConcurrency(p: Plan, q: Plan, exec: Executor, start: RunStates, id: string)
    requires PlanOk(p) && PlanOk(q) && Covers(p, start) && Covers(q, start) && id in start
    requires p.nodes == q.nodes && p.deps == q.deps && p.spec.snapshotIdentity == q.spec.snapshotIdentity
    ensures Fate(p, exec, start, id) == Fate(q, exec, start, id)
    decreases RankOf(p.deps)[id]
  {
    if start[id].Pending? {
      var fates := DepFates(p, exec, start, id);
      forall d | d in p.deps[id] ensures fates[d] == Fate(q, exec, start, d) {
        FateIgnoresConcurrency(p, q, exec, start, d);
      }
      assert fates == DepFates(q, exec, start, id);
      FateFromIgnoresConcurrency(p, q, exec, id, fates);
      FatePending(p, exec, start, id);
      FatePending(q, exec, start, id);
    }
  }

  lemma FateFromIgnoresConcurrency(p: Plan, q: Plan, exec: Executor, id: string, fates: map<string, Status>)
    requires id in p.nodes && id in p.deps
    requires p.nodes == q.nodes && p.deps == q.deps && p.spec.snapshotIdentity == q.spec.snapshotIdentity
    ensures FateFrom(p, exec, id, fates) == FateFrom(q, exec, id, fates)
  {
  }

  lemma FinishedIsFate(p: Plan, exec: Executor, start: RunStates, st: RunStates)
    requires PlanOk(p) && Covers(p, start) && Agrees(p, exec, start, st) && AllTerminal(st)
    ensures NoneStuck(p, exec, start)
    ensures forall id :: id in st ==> StatusOf(st[id]) == Fate(p, exec, start, id)
  {
    forall id | id in st ensures StatusOf(st[id]) == Fate(p, exec, start, id) {
      assert AgreesAt(p, exec, start, st, id);
    }
  }

  /** Recording one honest result keeps agreement. */
  lemma RecordStep(p: Plan, exec: Executor, start: RunStates, st: RunStates, id: string, outcome: NodeOutcome)
    requires PlanOk(p) && Covers(p, start) && Agrees(p, exec, start, st) && Inv(p, st)
    requires IsRunning(st, id) && start[id].Pending? && outcome == exec(DispatchFor(p, st, id))
    ensures Settle(p.spec.snapshotIdentity, outcome).None? ==> Fate(p, exec, start, id) == Stuck
    ensures Settle(p.spec.snapshotIdentity, outcome).Some? ==> Agrees(p, exec, start, Apply(p, st, Record(id, outcome)))
  {
    assert NodeOk(p, st, id);
    ExecutedFate(p, exec, start, st, id);
    var settled := Settle(p.spec.snapshotIdentity, outcome);
    if settled.Some? {
      AgreesRecord(p, exec, start, st, id, settled.value);
      AgreesPropagate(p, exec, start, st[id := settled.value]);
    }
  }

  /** Recording one result takes its node out of the running ones and makes none pending. */
  lemma RecordCounts(p: Plan, st: RunStates, id: string, outcome: NodeOutcome)
    requires IsRunning(st, id) && Settle(p.spec.snapshotIdentity, outcome).Some?
    ensures var next := Apply(p, st, Record(id, outcome));
            && Grows(st, next) && RunningIds(next) == RunningIds(st) - {id} && PendingIds(next) <= PendingIds(st)
  {
    SettleSound(p.spec.snapshotIdentity, outcome);
    var settled := Settle(p.spec.snapshotIdentity, outcome);
    PropagateGrows(p, st[id := settled.value]);
    PropagatePending(p, st[id := settled.value]);
  }

  lemma PropagatePending(p: Plan, st: RunStates)
    ensures PendingIds(Propagate(p, st)) <= PendingIds(st)
  {
    PropagateFrame(p, st);
    assert forall id :: id in st ==> Step(p, st, Propagate(p, st), id);
  }

  /** A running node keeps its dispatch while others finish. */
  lemma RunningDispatch(p: Plan, before: RunStates, after: RunStates, id: string)
    requires Inv(p, before) && Grows(before, after) && IsRunning(before, id)
    ensures id in p.nodes && id in p.deps && DispatchFor(p, after, id) == DispatchFor(p, before, id)
  {
    assert NodeOk(p, before, id);
    DispatchStable(p, before, after, id);
  }

  /** What the next batch does to a run that agrees so far. */
  lemma BatchAgrees(p: Plan, exec: Executor, start: RunStates, st: RunStates)
    requires PlanOk(p) && Covers(p, start) && Agrees(p, exec, start, st) && Settled(p, st)
    ensures Agrees(p, exec, start, Apply(p, st, NextBatch))
    ensures forall id :: id in BatchIds(p, st) ==> id in start && start[id].Pending? && IsRunning(Apply(p, st, NextBatch), id)
    ensures RunningIds(Apply(p, st, NextBatch)) <= RunningIds(st) + Elements(BatchIds(p, st))
    ensures BatchIds(p, st) != [] ==> |PendingIds(Apply(p, st, NextBatch))| < |PendingIds(st)|
  {
    var ids := BatchIds(p, st);
    var next := Apply(p, st, NextBatch);
    BatchMembers(p, st);
    AgreesStarting(p, exec, start, st, ids);
    forall id | id in ids ensures start[id].Pending? {
      assert AgreesAt(p, exec, start, st, id);
    }
    if ids != [] {
      assert ids[0] in ids;
      assert PendingIds(next) <= PendingIds(st) - {ids[0]};
      SubsetSize(PendingIds(next), PendingIds(st) - {ids[0]});
    }
  }

  /** The dispatches of a batch are those of the state in which its nodes are running. */
  lemma BatchDispatch(p: Plan, st: RunStates, id: string)
    requires Covers(p, st) && Settled(p, st) && id in BatchIds(p, st)
    ensures id in p.nodes && id in p.deps
    ensures DispatchFor(p, Apply(p, st, NextBatch), id) == DispatchFor(p, st, id)
  {
    BatchMembers(p, st);
    InputsAgree(Apply(p, st, NextBatch), st, p.deps[id]);
  }

  /** Every executed node has the status the evaluator gives it, whatever was refused, skipped or blocked on the way. */
  ghost predicate Faithful(p: Plan, exec: Executor, start: RunStates, st: RunStates)
    requires PlanOk(p) && Covers(p, start)
  {
    && Covers(p, st)
    && forall id {:trigger FaithfulAt(p, exec, start, id, st[id])} :: id in st ==> FaithfulAt(p, exec, start, id, st[id])
  }

  ghost predicate FaithfulAt(p: Plan, exec: Executor, start: RunStates, id: string, s: NodeState)
    requires PlanOk(p) && Covers(p, start)
  {
    id in p.nodes && (s.Executed() ==> Fate(p, exec, start, id) == Known(s))
  }

  lemma FaithfulStart(p: Plan, exec: Executor, start: RunStates)
    requires PlanOk(p) && Covers(p, start)
    ensures Faithful(p, exec, start, start)
  {
  }

  /** Results recorded are the executor's answers to the dispatches the coordinator made. */
  ghost predicate HonestOp(p: Plan, exec: Executor, st: RunStates, op: Op) {
    op.Record? && IsRunning(st, op.id) ==>
      op.id in p.nodes && op.id in p.deps && op.outcome == exec(DispatchFor(p, st, op.id))
  }

  ghost predicate Honest(p: Plan, exec: Executor, st: RunStates, ops: seq<Op>)
    decreases |ops|
  {
    ops == [] || (HonestOp(p, exec, st, ops[0]) && Honest(p, exec, Apply(p, st, ops[0]), ops[1..]))
  }

  /** A state that adds no executed node of its own is as faithful as the one before. */
  lemma FaithfulStep(p: Plan, exec: Executor, start: RunStates, before: RunStates, after: RunStates)
    requires PlanOk(p) && Covers(p, start) && Faithful(p, exec, start, before) && after.Keys == before.Keys
    requires forall id :: id in after && after[id].Executed() ==> after[id] == before[id]
    ensures Faithful(p, exec, start, after)
  {
    assert forall id :: id in before ==> FaithfulAt(p, exec, start, id, before[id]);
  }

  lemma FaithfulFate(p: Plan, exec: Executor, start: RunStates, st: RunStates, id: string)
    requires PlanOk(p) && Covers(p, start) && Faithful(p, exec, start, st) && id in st && AllSucceeded(st, p.deps[id])
    requires start[id].Pending?
    ensures var settled := Settle(p.spec.snapshotIdentity, exec(DispatchFor(p, st, id)));
            Fate(p, exec, start, id) == if settled.Some? then Known(settled.value) else Stuck
  {
    var fates := DepFates(p, exec, start, id);
    assert forall d :: d in p.deps[id] ==> d in st && FaithfulAt(p, exec, start, d, st[d]);
    assert forall d :: d in p.deps[id] ==> d in fates && fates[d] == Known(st[d]);
    FateFromSucceeded(p, exec, id, fates, st);
  }

  lemma FaithfulRecord(p: Plan, exec: Executor, start: RunStates, st: RunStates, id: string, s: NodeState)
    requires PlanOk(p) && Covers(p, start) && Faithful(p, exec, start, st) && id in st && AllSucceeded(st, p.deps[id])
    requires start[id].Pending?
    requires Settle(p.spec.snapshotIdentity, exec(DispatchFor(p, st, id))) == Some(s)
    ensures Faithful(p, exec, start, st[id := s])
  {
    FaithfulFate(p, exec, start, st, id);
    var next := st[id := s];
    forall x | x in next ensures FaithfulAt(p, exec, start, x, next[x]) {
      assert FaithfulAt(p, exec, start, x, st[x]);
    }
  }

  lemma PropagateExecuted(p: Plan, st: RunStates)
    ensures Propagate(p, st).Keys == st.Keys
    ensures forall id :: id in st && Propagate(p, st)[id].Executed() ==> Propagate(p, st)[id] == st[id]
  {
    PropagateFrame(p, st);
    assert forall id :: id in st ==> Step(p, st, Propagate(p, st), id);
  }

  /** Only a recorded outcome makes a node executed. */
  lemma OthersExecuteNothing(p: Plan, st: RunStates, op: Op)
    requires !op.Record?
    ensures Apply(p, st, op).Keys == st.Keys
    ensures forall id :: id in st && Apply(p, st, op)[id].Executed() ==> Apply(p, st, op)[id] == st[id]
  {
    match op
    case NextBatch => PropagateExecuted(p, st);
    case RecordSkippedOversize(id, reason, actualBytes, byteLimit) =>
      if IsRunning(st, id) {
        PropagateExecuted(p, st[id := Oversized(reason, actualBytes, byteLimit)]);
      }
    case RecordNotDispatched(_, _) =>
    case MarkPendingNotDispatched(_) =>
  }

  lemma FaithfulApply(p: Plan, exec: Executor, start: RunStates, st: RunStates, op: Op)
    requires PlanOk(p) && Covers(p, start) && Inv(p, st) && Faithful(p, exec, start, st) && HonestOp(p, exec, st, op)
    requires op.Record? && IsRunning(st, op.id) ==> start[op.id].Pending?
    ensures Faithful(p, exec, start, Apply(p, st, op))
  {
    if !op.Record? {
      OthersExecuteNothing(p, st, op);
      FaithfulStep(p, exec, start, st, Apply(p, st, op));
    } else if IsRunning(st, op.id) && Settle(p.spec.snapshotIdentity, op.outcome).Some? {
      var s := Settle(p.spec.snapshotIdentity, op.outcome).value;
      assert NodeOk(p, st, op.id);
      FaithfulRecord(p, exec, start, st, op.id, s);
      PropagateExecuted(p, st[op.id := s]);
      FaithfulStep(p, exec, start, st[op.id := s], Apply(p, st, op));
    }
  }

  /** Whatever happens after a start with nothing running, executed nodes have the status the evaluator gives them. */
  lemma {:induction false} FaithfulRun(p: Plan, exec: Executor, start: RunStates, st: RunStates, ops: seq<Op>)
    requires PlanOk(p) && Covers(p, start) && RunningIds(start) == {} && Grows(start, st)
    requires Inv(p, st) && Faithful(p, exec, start, st) && PendingIds(st) <= PendingIds(start) && Honest(p, exec, st, ops)
    ensures var end := ApplyAll(p, st, ops); Faithful(p, exec, start, end) && Inv(p, end) && Grows(start, end)
    decreases |ops|
  {
    if ops != [] {
      ApplyInv(p, st, ops[0]);
      assert ops[0].Record? && IsRunning(st, ops[0].id) ==> ops[0].id !in RunningIds(start);
      FaithfulApply(p, exec, start, st, ops[0]);
      ApplyPending(p, st, ops[0]);
      FaithfulRun(p, exec, start, Apply(p, st, ops[0]), ops[1..]);
    }
  }

  /** No operation makes a node pending. */
  lemma ApplyPending(p: Plan, st: RunStates, op: Op)
    ensures PendingIds(Apply(p, st, op)) <= PendingIds(st)
  {
    match op
    case NextBatch => PropagatePending(p, st);
    case Record(id, outcome) =>
      var settled := Settle(p.spec.snapshotIdentity, outcome);
      if settled.Some? {
        SettleSound(p.spec.snapshotIdentity, outcome);
        PropagatePending(p, st[id := settled.value]);
      }
    case RecordSkippedOversize(id, reason, actualBytes, byteLimit) =>
      PropagatePending(p, st[id := Oversized(reason, actualBytes, byteLimit)]);
    case RecordNotDispatched(_, _) =>
    case MarkPendingNotDispatched(_) =>
  }
}
