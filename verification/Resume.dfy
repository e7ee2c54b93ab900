/** Checkpoints: what one keeps, which ones a resume accepts, and what a resumed run ends in. */
module Resumption {
  import opened Lexical
  import opened Acyclicity
  import opened Text
  import opened Specification
  import opened Identity
  import opened States
  import opened Blocking
  import opened Operations
  import opened Evaluation

  const RUN_STATE_SCHEMA := "code-intel-run-state.v1"

  datatype RunCheckpoint = RunCheckpoint(schema: string, runIdentity: CanonicalSpec, nodes: RunStates)

  /** A checkpoint forgets attempts that were still running. */
  function Persisted(st: RunStates): RunStates {
    map id | id in st :: if st[id].Running? then Pending else st[id]
  }

  function CheckpointOf(p: Plan, st: RunStates): RunCheckpoint {
    RunCheckpoint(RUN_STATE_SCHEMA, Canonical(p.spec), Persisted(st))
  }

  predicate HistoryAt(p: Plan, nodes: RunStates, id: string) {
    && id in nodes && id in p.deps
    && (nodes[id].Executed() ==> AllSucceeded(nodes, p.deps[id]))
    && (nodes[id].DependencyBlocked? ==>
          BlockingAmong(nodes, p.deps[id]) != [] && nodes[id].blockedBy == BlockingAmong(nodes, p.deps[id]))
  }

  predicate Restorable(snapshot: string, s: NodeState) {
    match s
    case Succeeded(verdict, artifacts) => verdict != Fail && Bound(snapshot, artifacts)
    case DomainFailed(diagnostic, artifacts) => !IsBlank(diagnostic) && Bound(snapshot, artifacts)
    case TimedOut(diagnostic) => !IsBlank(diagnostic)
    case ProcessFailed(_, diagnostic) => !IsBlank(diagnostic)
    case _ => true
  }

  predicate Accepted(p: Plan, checkpoint: RunCheckpoint) {
    && checkpoint.schema == RUN_STATE_SCHEMA && checkpoint.runIdentity == Canonical(p.spec)
    && checkpoint.nodes.Keys <= p.nodes.Keys
    && (forall id :: id in checkpoint.nodes ==> HistoryAt(p, checkpoint.nodes, id))
    && (forall id :: id in checkpoint.nodes ==> Restorable(p.spec.snapshotIdentity, checkpoint.nodes[id]))
  }

  /** Executed nodes are restored; every other node starts over. */
  function RestoredAt(nodes: RunStates, id: string): NodeState {
    if id in nodes && nodes[id].Executed() then nodes[id] else Pending
  }

  function Restored(p: Plan, nodes: RunStates): RunStates {
    map id | id in p.nodes :: RestoredAt(nodes, id)
  }

  function Resumed(p: Plan, nodes: RunStates): RunStates {
    Propagate(p, Restored(p, nodes))
  }

  lemma {:induction false} PersistedBlocking(st: RunStates, ids: seq<string>)
    ensures BlockingAmong(Persisted(st), ids) == BlockingAmong(st, ids)
  {
    if ids != [] {
      PersistedBlocking(st, ids[1..]);
    }
  }

  /** The block list of a node still names every dependency that blocks. */
  ghost predicate BlockListComplete(p: Plan, st: RunStates, id: string) {
    id in st && id in p.deps && (st[id].DependencyBlocked? ==> st[id].blockedBy == BlockingAmong(st, p.deps[id]))
  }

  /** A resume accepts a run's own checkpoint exactly when no block list has fallen behind. */
  lemma OwnCheckpointAccepted(p: Plan, st: RunStates)
    requires PlanOk(p) && Inv(p, st)
    ensures Accepted(p, CheckpointOf(p, st)) <==> forall id :: id in st ==> BlockListComplete(p, st, id)
  {
    var nodes := Persisted(st);
    forall id | id in st
      ensures HistoryAt(p, nodes, id) <==> BlockListComplete(p, st, id)
      ensures Restorable(p.spec.snapshotIdentity, nodes[id])
    {
      assert NodeOk(p, st, id);
      PersistedBlocking(st, p.deps[id]);
      BlockingAmongMembers(st, p.deps[id]);
      if st[id].DependencyBlocked? {
        assert st[id].blockedBy[0] in st[id].blockedBy;
      }
    }
  }

  /** A checkpoint is accepted for no other work: any specification that accepts it is the one it was made for, up to order. */
  lemma OtherWorkRefused(a: DagSpec, b: DagSpec, st: RunStates)
    requires ValidSpec(a) && ValidSpec(b) && Accepted(PlanOf(b), CheckpointOf(PlanOf(a), st))
    ensures SameContents(a, b)
  {
    IdentityIgnoresOrderOnly(a, b);
    hide SameContents, ValidSpec, Canonical, HistoryAt, Restorable;
  }

  /** The checkpoint was made for work that the specification does not declare. */
  ghost predicate OfOtherWork(spec: DagSpec, checkpoint: RunCheckpoint) {
    exists other, st :: ValidSpec(other) && !SameContents(other, spec) && checkpoint == CheckpointOf(PlanOf(other), st)
  }

  lemma OtherWorkNeverAccepted(spec: DagSpec, checkpoint: RunCheckpoint)
    ensures ValidSpec(spec) && OfOtherWork(spec, checkpoint) ==> !Accepted(PlanOf(spec), checkpoint)
  {
    if ValidSpec(spec) && OfOtherWork(spec, checkpoint) && Accepted(PlanOf(spec), checkpoint) {
      var other, st :| ValidSpec(other) && !SameContents(other, spec) && checkpoint == CheckpointOf(PlanOf(other), st);
      OtherWorkRefused(other, spec, st);
    }
  }

  /** Declaring the same work in another order changes nothing about which checkpoints are accepted. */
  lemma ReorderedAccepts(a: DagSpec, b: DagSpec, checkpoint: RunCheckpoint)
    requires ValidSpec(a) && ValidSpec(b) && SameContents(a, b)
    ensures Accepted(PlanOf(a), checkpoint) <==> Accepted(PlanOf(b), checkpoint)
  {
    IdentityIgnoresOrderOnly(a, b);
    SamePlan(a, b);
    assert a.snapshotIdentity == b.snapshotIdentity && PlanOf(a).spec == a && PlanOf(b).spec == b;
    hide *;
    AcceptAlike(PlanOf(a), PlanOf(b), checkpoint);
  }

  lemma AcceptAlike(p: Plan, q: Plan, checkpoint: RunCheckpoint)
    requires p.nodes == q.nodes && p.deps == q.deps
    requires p.spec.snapshotIdentity == q.spec.snapshotIdentity && Canonical(p.spec) == Canonical(q.spec)
    ensures Accepted(p, checkpoint) <==> Accepted(q, checkpoint)
  {
    forall id ensures HistoryAt(p, checkpoint.nodes, id) <==> HistoryAt(q, checkpoint.nodes, id) {}
    hide HistoryAt, Restorable, Canonical;
  }

  /** Whatever checkpoint is accepted, the resumed state satisfies the run invariant with nothing running. */
  lemma ResumedStable(p: Plan, checkpoint: RunCheckpoint)
    requires PlanOk(p) && Accepted(p, checkpoint)
    ensures Stable(p, Resumed(p, checkpoint.nodes))
    ensures RunningIds(Resumed(p, checkpoint.nodes)) == {}
  {
    var st := Restored(p, checkpoint.nodes);
    assert RunningIds(st) == {};
    forall id | id in st ensures NodeOk(p, st, id) {
      if st[id].Executed() {
        assert HistoryAt(p, checkpoint.nodes, id) && Restorable(p.spec.snapshotIdentity, checkpoint.nodes[id]);
      }
    }
    PropagateInv(p, st);
    PropagateFrame(p, st);
  }

  /** Propagating blocks early changes no node's fate. */
  lemma {:induction false} PropagateKeepsFate(p: Plan, exec: Executor, st: RunStates, id: string)
    requires PlanOk(p) && Covers(p, st) && id in st
    ensures Covers(p, Propagate(p, st))
    ensures Fate(p, exec, Propagate(p, st), id) == Fate(p, exec, st, id)
    decreases RankOf(p.deps)[id]
  {
    var next := Propagate(p, st);
    PropagateFrame(p, st);
    assert Step(p, st, next, id);
    if next[id].Pending? {
      forall d | d in p.deps[id] ensures Fate(p, exec, next, d) == Fate(p, exec, st, d) {
        PropagateKeepsFate(p, exec, st, d);
      }
      assert DepFates(p, exec, next, id) == DepFates(p, exec, st, id);
    } else {
      AgreesStart(p, exec, st);
      AgreesPropagate(p, exec, st, st);
      assert AgreesAt(p, exec, st, next, id);
    }
  }

  /** What a new or a resumed coordinator starts from: executed nodes, blocked ones, and pending ones. */
  ghost predicate Clean(st: RunStates) {
    forall id :: id in st ==> st[id].Pending? || st[id].Executed() || st[id].DependencyBlocked?
  }

  /** A run from `start` has come to `st`. */
  ghost predicate Underway(p: Plan, exec: Executor, start: RunStates, st: RunStates)
    requires PlanOk(p) && Covers(p, start)
  {
    Inv(p, start) && Clean(start) && Grows(start, st) && Faithful(p, exec, start, st)
  }

  lemma RestoredExecuted(p: Plan, exec: Executor, start: RunStates, st: RunStates, id: string)
    requires PlanOk(p) && Covers(p, start) && Underway(p, exec, start, st) && id in st && st[id].Executed()
    ensures Fate(p, exec, Restored(p, Persisted(st)), id) == Fate(p, exec, start, id)
  {
    assert FaithfulAt(p, exec, start, id, st[id]);
    hide Fate, Agrees, Inv;
    var restored := Restored(p, Persisted(st));
    assert restored[id] == st[id];
    TerminalFate(p, exec, restored, id);
  }

  lemma TerminalFate(p: Plan, exec: Executor, start: RunStates, id: string)
    requires PlanOk(p) && Covers(p, start) && id in start && start[id].Terminal()
    ensures Fate(p, exec, start, id) == StatusOf(start[id])
  {
  }

  lemma {:induction false} RestoredKeepsFate(p: Plan, exec: Executor, start: RunStates, st: RunStates, id: string)
    requires PlanOk(p) && Covers(p, start) && Underway(p, exec, start, st) && id in st
    ensures Fate(p, exec, Restored(p, Persisted(st)), id) == Fate(p, exec, start, id)
    decreases RankOf(p.deps)[id], 1
  {
    if st[id].Executed() {
      RestoredExecuted(p, exec, start, st, id);
    } else {
      RestoredDeps(p, exec, start, st, id);
      if start[id].DependencyBlocked? {
        RestoredBlocked(p, exec, start, Restored(p, Persisted(st)), id);
      } else {
        FateFromDeps(p, exec, Restored(p, Persisted(st)), start, id);
      }
    }
  }

  lemma RestoredDeps(p: Plan, exec: Executor, start: RunStates, st: RunStates, id: string)
    requires PlanOk(p) && Covers(p, start) && Underway(p, exec, start, st) && id in st
    ensures DepFates(p, exec, Restored(p, Persisted(st)), id) == DepFates(p, exec, start, id)
    decreases RankOf(p.deps)[id], 0
  {
    hide Fate, Inv, Clean, Faithful;
    var fates := DepFates(p, exec, Restored(p, Persisted(st)), id);
    forall d | d in p.deps[id] ensures fates[d] == Fate(p, exec, start, d) {
      RestoredKeepsFate(p, exec, start, st, d);
    }
  }

  /** A node that was blocked at the start is blocked again when it starts over. */
  lemma RestoredBlocked(p: Plan, exec: Executor, start: RunStates, restored: RunStates, id: string)
    requires PlanOk(p) && Inv(p, start) && Covers(p, restored) && id in start && start[id].DependencyBlocked? && restored[id].Pending?
    requires DepFates(p, exec, restored, id) == DepFates(p, exec, start, id)
    ensures Fate(p, exec, restored, id) == Fate(p, exec, start, id)
  {
    assert NodeOk(p, start, id);
    var d := BlockerOf(p, start, id);
    TerminalFate(p, exec, start, d);
    FatePending(p, exec, restored, id);
    assert DepFates(p, exec, restored, id)[d].Blocks();
  }

  /** Resuming changes no node's fate, whatever was running, skipped, refused or blocked when the run stopped. */
  lemma ResumeKeepsFate(p: Plan, exec: Executor, start: RunStates, st: RunStates, id: string)
    requires PlanOk(p) && Covers(p, start) && Underway(p, exec, start, st) && id in st
    ensures Covers(p, Resumed(p, Persisted(st)))
    ensures Fate(p, exec, Resumed(p, Persisted(st)), id) == Fate(p, exec, start, id)
  {
    PropagateKeepsFate(p, exec, Restored(p, Persisted(st)), id);
    RestoredKeepsFate(p, exec, start, st, id);
  }

  lemma RestoredInv(p: Plan, st: RunStates)
    requires PlanOk(p) && Inv(p, st)
    ensures Inv(p, Restored(p, Persisted(st)))
  {
    var restored := Restored(p, Persisted(st));
    assert RunningIds(restored) == {};
    forall id | id in restored ensures NodeOk(p, restored, id) {
      RestoredNode(p, st, id);
    }
    hide NodeOk, Restored, Persisted;
  }

  lemma RestoredNode(p: Plan, st: RunStates, id: string)
    requires PlanOk(p) && Inv(p, st) && id in st
    ensures NodeOk(p, Restored(p, Persisted(st)), id)
  {
    assert NodeOk(p, st, id);
    assert id in p.deps;
    hide Inv, PlanOk, Sound, BlockingAmong;
    RestoredSucceeded(p, st, p.deps[id]);
  }

  lemma RestoredSucceeded(p: Plan, st: RunStates, ids: seq<string>)
    requires Covers(p, st)
    ensures AllSucceeded(st, ids) ==> AllSucceeded(Restored(p, Persisted(st)), ids)
  {
  }

  /** What a run's own checkpoint resumes to. */
  lemma ResumedClean(p: Plan, st: RunStates)
    requires PlanOk(p) && Inv(p, st)
    ensures var next := Resumed(p, Persisted(st));
            && Stable(p, next) && Clean(next) && RunningIds(next) == {}
            && forall id :: id in st ==> (st[id].Executed() <==> next[id].Executed()) && (st[id].Executed() ==> next[id] == st[id])
  {
    var restored := Restored(p, Persisted(st));
    var next := Propagate(p, restored);
    RestoredInv(p, st);
    PropagateInv(p, restored);
    PropagateFrame(p, restored);
    assert RunningIds(restored) == {};
    forall id | id in st
      ensures next[id].Pending? || next[id].Executed() || next[id].DependencyBlocked?
      ensures (st[id].Executed() <==> next[id].Executed()) && (st[id].Executed() ==> next[id] == st[id])
    {
      assert Step(p, restored, next, id);
    }
  }

  /** In a stable state a node that was not executed and is not refused is blocked exactly when a dependency blocks. */
  lemma BlockedExactly(p: Plan, st: RunStates, id: string)
    requires Stable(p, st) && Clean(st) && id in st && !st[id].Executed()
    ensures st[id].DependencyBlocked? <==> exists d :: d in p.deps[id] && d in st && st[d].Blocks()
  {
    assert NodeOk(p, st, id);
    BlockingAmongMembers(st, p.deps[id]);
    if st[id].DependencyBlocked? {
      assert st[id].blockedBy[0] in st[id].blockedBy;
    } else {
      assert !Blockable(p, st, id);
    }
  }

  /** Two clean stable states with the same executed nodes block the same nodes. */
  lemma {:induction false} SameExecuted(p: Plan, a: RunStates, b: RunStates, id: string)
    requires PlanOk(p) && Stable(p, a) && Stable(p, b) && Clean(a) && Clean(b) && id in a
    requires forall x :: x in a ==> (a[x].Executed() || b[x].Executed() ==> a[x] == b[x])
    ensures StatusOf(a[id]) == StatusOf(b[id])
    decreases RankOf(p.deps)[id]
  {
    if !a[id].Executed() {
      forall d | d in p.deps[id] ensures d in a && d in b && a[d].Blocks() == b[d].Blocks() {
        SameExecuted(p, a, b, d);
      }
      BlockedExactly(p, a, id);
      BlockedExactly(p, b, id);
    }
  }

  /** A checkpoint brings every status back exactly when nothing was running, refused or skipped. */
  lemma CheckpointRoundTrip(p: Plan, st: RunStates)
    requires PlanOk(p) && Stable(p, st)
    ensures var next := Resumed(p, CheckpointOf(p, st).nodes);
            next.Keys == st.Keys && ((forall id :: id in st ==> StatusOf(next[id]) == StatusOf(st[id])) <==> Clean(st))
  {
    var next := Resumed(p, Persisted(st));
    ResumedClean(p, st);
    if Clean(st) {
      forall id | id in st ensures StatusOf(next[id]) == StatusOf(st[id]) {
        SameExecuted(p, next, st, id);
      }
    } else {
      var id :| id in st && !(st[id].Pending? || st[id].Executed() || st[id].DependencyBlocked?);
      assert StatusOf(st[id]) == Known(st[id]) && StatusOf(next[id]) != Known(st[id]);
    }
  }

  // ---------------------------------------------------------------- runs interrupted any number of times

  /** After each session the run is checkpointed and resumed. */
  function Interrupted(p: Plan, st: RunStates, sessions: seq<seq<Op>>): RunStates
    decreases |sessions|
  {
    if sessions == [] then st
    else Interrupted(p, Resumed(p, Persisted(ApplyAll(p, st, sessions[0]))), sessions[1..])
  }

  lemma {:induction false} InterruptedAgain(p: Plan, st: RunStates, earlier: seq<seq<Op>>, ops: seq<Op>)
    ensures Interrupted(p, st, earlier + [ops]) == Resumed(p, Persisted(ApplyAll(p, Interrupted(p, st, earlier), ops)))
    decreases |earlier|
  {
    if earlier == [] {
      assert [ops][1..] == [] && [] + [ops] == [ops];
    } else {
      var next := Resumed(p, Persisted(ApplyAll(p, st, earlier[0])));
      InterruptedAgain(p, next, earlier[1..], ops);
      assert (earlier + [ops])[1..] == earlier[1..] + [ops];
    }
  }

  ghost predicate HonestSessions(p: Plan, exec: Executor, st: RunStates, sessions: seq<seq<Op>>)
    decreases |sessions|
  {
    sessions == [] ||
    (Honest(p, exec, st, sessions[0]) && HonestSessions(p, exec, Resumed(p, Persisted(ApplyAll(p, st, sessions[0]))), sessions[1..]))
  }

  lemma SessionUnderway(p: Plan, exec: Executor, st: RunStates, ops: seq<Op>)
    requires PlanOk(p) && Stable(p, st) && Clean(st) && Honest(p, exec, st, ops)
    ensures Underway(p, exec, st, ApplyAll(p, st, ops)) && Inv(p, ApplyAll(p, st, ops))
  {
    assert RunningIds(st) == {};
    FaithfulStart(p, exec, st);
    FaithfulRun(p, exec, st, st, ops);
  }

  /** However often a run is interrupted and resumed, every node keeps the status the run must give it. */
  lemma {:induction false} InterruptedKeepsFate(p: Plan, exec: Executor, st: RunStates, sessions: seq<seq<Op>>)
    requires PlanOk(p) && Stable(p, st) && Clean(st) && HonestSessions(p, exec, st, sessions)
    ensures var now := Interrupted(p, st, sessions);
            Stable(p, now) && Clean(now) && forall id :: id in st ==> Fate(p, exec, now, id) == Fate(p, exec, st, id)
    decreases |sessions|
  {
    hide Fate, Honest, Underway;
    if sessions != [] {
      var end := ApplyAll(p, st, sessions[0]);
      SessionUnderway(p, exec, st, sessions[0]);
      UnderwayCovers(p, exec, st, end);
      ResumedClean(p, end);
      forall id | id in st ensures Fate(p, exec, Resumed(p, Persisted(end)), id) == Fate(p, exec, st, id) {
        ResumeKeepsFate(p, exec, st, end, id);
      }
      InterruptedKeepsFate(p, exec, Resumed(p, Persisted(end)), sessions[1..]);
    }
  }

  lemma UnderwayCovers(p: Plan, exec: Executor, start: RunStates, st: RunStates)
    requires PlanOk(p) && Covers(p, start) && Underway(p, exec, start, st)
    ensures st.Keys == start.Keys
  {
  }

  /** After any number of interruptions a run still ends, with the same status for every node, exactly when it would have without
      them; with an executor that keeps to the snapshot it does end. */
  lemma ResumedRunEndsAlike(p: Plan, exec: Executor, sessions: seq<seq<Op>>)
    requires PlanOk(p) && HonestSessions(p, exec, Unstarted(p), sessions)
    ensures var now := Interrupted(p, Unstarted(p), sessions);
            && Stable(p, now) && Clean(now) && !LeftOver(now)
            && (NoneStuck(p, exec, now) <==> NoneStuck(p, exec, Unstarted(p)))
            && (Loyal(p.spec.snapshotIdentity, exec) ==> NoneStuck(p, exec, now))
            && forall id :: id in p.nodes ==> Fate(p, exec, now, id) == Fate(p, exec, Unstarted(p), id)
  {
    var now := Interrupted(p, Unstarted(p), sessions);
    UnstartedStable(p);
    InterruptedKeepsFate(p, exec, Unstarted(p), sessions);
    CleanStart(now);
    SameFates(p, exec, Unstarted(p), now);
    hide Fate, NoneStuck, Clean, Inv, Settled, Interrupted, HonestSessions, LeftOver, Loyal;
    if Loyal(p.spec.snapshotIdentity, exec) {
      LoyalNoneStuck(p, exec, now);
    }
  }

  lemma CleanStart(st: RunStates)
    ensures Clean(st) ==> !LeftOver(st) && RunningIds(st) == {}
  {
  }

  lemma SameFates(p: Plan, exec: Executor, a: RunStates, b: RunStates)
    requires PlanOk(p) && Covers(p, a) && Covers(p, b)
    requires forall id :: id in a ==> Fate(p, exec, b, id) == Fate(p, exec, a, id)
    ensures NoneStuck(p, exec, b) <==> NoneStuck(p, exec, a)
  {
    hide Fate;
  }

  /** A chain with a shortcut: `b` waits on `a`, and `c` waits on both. */
  ghost predicate Shortcut(p: Plan, a: string, b: string, c: string) {
    && a != b && b != c && a != c && p.deps.Keys == {a, b, c}
    && p.deps[a] == [] && p.deps[b] == [a] && p.deps[c] == [a, b]
  }

  lemma OneBlocker(st: RunStates, x: string)
    requires x in st
    ensures BlockingAmong(st, [x]) == if st[x].Blocks() then [x] else []
  {
  }

  lemma TwoBlockers(st: RunStates, x: string, y: string)
    requires x in st && y in st
    ensures BlockingAmong(st, [x]) == if st[x].Blocks() then [x] else []
    ensures BlockingAmong(st, [x, y]) == (if st[x].Blocks() then [x] else []) + (if st[y].Blocks() then [y] else [])
  {
    assert [x, y][1..] == [y];
    OneBlocker(st, x);
    OneBlocker(st, y);
  }

  /** After `a` fails, both dependents are blocked in one round, and `c` names `a` alone. */
  lemma ShortcutBlocks(p: Plan, st: RunStates, a: string, b: string, c: string)
    requires Shortcut(p, a, b, c) && Covers(p, st)
    requires st[a].Blocks() && st[b].Pending? && st[c].Pending?
    ensures var after := Propagate(p, st);
            after.Keys == st.Keys && after[a] == st[a] && after[b].Blocks() && after[c] == DependencyBlocked([a])
  {
    TwoBlockers(st, a, b);
    assert Blockable(p, st, b) && Blockable(p, st, c);
    PropagateGrows(p, BlockRound(p, st));
  }

  lemma ShortcutReady(p: Plan, a: string, b: string, c: string)
    requires Shortcut(p, a, b, c) && Covers(p, Unstarted(p))
    ensures Propagate(p, Unstarted(p)) == Unstarted(p)
    ensures ReadyIds(p, Unstarted(p)) == {a} && RunningIds(Unstarted(p)) == {}
  {
    var st := Unstarted(p);
    TwoBlockers(st, a, b);
    assert Settled(p, st);
    assert a in p.deps[b] && a in p.deps[c];
  }

  lemma AscendOne(x: string)
    ensures Ascend({x}) == [x]
  {
    assert {x} - {x} == {};
  }

  /** The first batch starts `a` and nothing else. */
  lemma ShortcutStarts(p: Plan, a: string, b: string, c: string)
    requires Shortcut(p, a, b, c) && Covers(p, Unstarted(p)) && p.spec.maxConcurrency > 0
    ensures Apply(p, Unstarted(p), NextBatch) == Unstarted(p)[a := Running]
  {
    ShortcutReady(p, a, b, c);
    AscendOne(a);
    assert BatchIds(p, Unstarted(p)) == [a];
  }

  /** A block list that names `a` alone while `b` blocks too is refused. */
  lemma BehindRefused(p: Plan, st: RunStates, a: string, b: string, c: string)
    requires Shortcut(p, a, b, c) && Covers(p, st)
    requires st[a].Blocks() && st[b].Blocks() && st[c] == DependencyBlocked([a])
    ensures !Accepted(p, CheckpointOf(p, st))
  {
    TwoBlockers(st, a, b);
    PersistedBlocking(st, [a, b]);
    assert !HistoryAt(p, Persisted(st), c);
  }

  lemma RecordedTimeout(p: Plan, st: RunStates, id: string, diagnostic: string)
    requires IsRunning(st, id)
    ensures Apply(p, st, Record(id, Timeout(diagnostic)))
         == Propagate(p, st[id := TimedOut(NonemptyDiagnostic(diagnostic, TIMEOUT_FALLBACK))])
  {
  }

  /** The round trip fails for every such plan: the checkpoint of that reachable state is refused. */
  lemma ShortcutRefused(p: Plan, a: string, b: string, c: string, diagnostic: string)
    requires Shortcut(p, a, b, c) && Covers(p, Unstarted(p)) && p.spec.maxConcurrency > 0
    ensures !Accepted(p, CheckpointOf(p, Apply(p, Apply(p, Unstarted(p), NextBatch), Record(a, Timeout(diagnostic)))))
  {
    ShortcutStarts(p, a, b, c);
    var started, s := Unstarted(p)[a := Running], TimedOut(NonemptyDiagnostic(diagnostic, TIMEOUT_FALLBACK));
    RecordedTimeout(p, started, a, diagnostic);
    ShortcutBlocks(p, started[a := s], a, b, c);
    BehindRefused(p, Propagate(p, started[a := s]), a, b, c);
  }

  const SHORTCUT_SPEC := DagSpec(ZERO_DIGEST, 1,
                                 [NodeSpec("a", "f", "r"), NodeSpec("b", "f", "r"), NodeSpec("c", "f", "r")],
                                 [EdgeSpec("a", "b"), EdgeSpec("a", "c"), EdgeSpec("b", "c")])

  lemma ShortcutAcyclic(p: Plan, a: string, b: string, c: string)
    requires Shortcut(p, a, b, c)
    ensures Acyclic(p.deps)
  {
    assert Ranks(map[a := 0, b := 1, c := 2], p.deps);
  }

  lemma ShortcutShape(spec: DagSpec)
    requires NodeIds(spec.nodes) == {"a", "b", "c"}
    requires Sources(spec.edges, "a") == {} && Sources(spec.edges, "b") == {"a"} && Sources(spec.edges, "c") == {"a", "b"}
    ensures Shortcut(PlanOf(spec), "a", "b", "c")
  {
    ShortcutLists();
    assert "a"[0] == 'a' && "b"[0] == 'b' && "c"[0] == 'c';
  }

  /** There is such a plan: three nodes, three edges. */
  lemma ShortcutExists()
    ensures ValidSpec(SHORTCUT_SPEC) && Shortcut(PlanOf(SHORTCUT_SPEC), "a", "b", "c")
  {
    ShortcutNodes(SHORTCUT_SPEC);
    ShortcutSources(SHORTCUT_SPEC.edges);
    ShortcutShape(SHORTCUT_SPEC);
    ShortcutAcyclic(PlanOf(SHORTCUT_SPEC), "a", "b", "c");
  }

  lemma ShortcutLists()
    ensures Ascend({}) == [] && Ascend({"a"}) == ["a"] && Ascend({"a", "b"}) == ["a", "b"]
  {
    AscendOne("a");
    assert "a"[0] == 'a' && "b"[0] == 'b';
    AscendingUnique(Ascend({"a", "b"}), ["a", "b"]);
  }

  lemma ShortcutNodes(spec: DagSpec)
    requires spec == SHORTCUT_SPEC
    ensures ValidHeader(spec) && NodesValid(spec.nodes) && EdgesValid({"a", "b", "c"}, spec.edges)
    ensures NodeIds(spec.nodes) == {"a", "b", "c"}
  {
    assert "a"[0] == 'a' && "b"[0] == 'b' && "c"[0] == 'c';
    assert "f"[0] == 'f' && "r"[0] == 'r';
    assert spec.nodes[0].id == "a" && spec.nodes[1].id == "b" && spec.nodes[2].id == "c";
  }

  lemma ShortcutSources(edges: seq<EdgeSpec>)
    requires edges == [EdgeSpec("a", "b"), EdgeSpec("a", "c"), EdgeSpec("b", "c")]
    ensures Sources(edges, "a") == {} && Sources(edges, "b") == {"a"} && Sources(edges, "c") == {"a", "b"}
  {
    assert edges[0] in edges && edges[1] in edges && edges[2] in edges;
    assert "a"[0] == 'a' && "b"[0] == 'b' && "c"[0] == 'c';
  }
}
