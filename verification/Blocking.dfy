/** Propagation blocks exactly the pending nodes that a blocking node reaches through pending nodes. */
module Blocking {
  import opened Lexical
  import opened Acyclicity
  import opened Specification
  import opened States

  /** From a node that blocks now, through pending nodes, each depending on the one before it. */
  ghost predicate BlockPath(p: Plan, st: RunStates, path: seq<string>) {
    && |path| >= 2 && path[0] in st && st[path[0]].Blocks()
    && (forall i :: 1 <= i < |path| ==> path[i] in st && st[path[i]].Pending? && path[i] in p.deps)
    && (forall i, j :: 0 <= i < j < |path| && j == i + 1 ==> path[i] in p.deps[path[j]])
  }

  ghost predicate Reached(p: Plan, st: RunStates, id: string) {
    exists path :: BlockPath(p, st, path) && path[|path| - 1] == id
  }

  /** What a round or a whole propagation may do to one node. */
  ghost predicate Step(p: Plan, before: RunStates, after: RunStates, id: string) {
    && id in before && id in after
    && (after[id] == before[id] || (before[id].Pending? && after[id].DependencyBlocked?))
  }

  lemma {:induction false} PropagateFrame(p: Plan, st: RunStates)
    ensures Propagate(p, st).Keys == st.Keys
    ensures forall id :: id in st ==> Step(p, st, Propagate(p, st), id)
    ensures Settled(p, Propagate(p, st))
    decreases |PendingIds(st)|
  {
    if !Settled(p, st) {
      var id :| id in st && Blockable(p, st, id);
      BlockRoundShrinks(p, st, id);
      var next := BlockRound(p, st);
      PropagateFrame(p, next);
      forall x | x in st ensures Step(p, st, Propagate(p, st), x) {
        assert Step(p, next, Propagate(p, next), x);
      }
    }
  }

  /** Propagation is the identity on its own result. */
  lemma PropagateIdempotent(p: Plan, st: RunStates)
    ensures Propagate(p, Propagate(p, st)) == Propagate(p, st)
  {
    PropagateFrame(p, st);
  }

  lemma RoundReach(p: Plan, st: RunStates, id: string)
    requires Blockable(p, st, id)
    ensures Reached(p, st, id)
  {
    var blockers := BlockingAmong(st, p.deps[id]);
    BlockingAmongMembers(st, p.deps[id]);
    assert blockers[0] in blockers;
    assert BlockPath(p, st, [blockers[0], id]);
  }

  /** A path that starts at a node the round blocked can be started one node earlier. */
  lemma ExtendPath(p: Plan, st: RunStates, path: seq<string>)
    requires BlockPath(p, BlockRound(p, st), path)
    ensures Reached(p, st, path[|path| - 1])
  {
    if st[path[0]].Blocks() {
      assert BlockPath(p, st, path);
    } else {
      assert Blockable(p, st, path[0]);
      var blockers := BlockingAmong(st, p.deps[path[0]]);
      BlockingAmongMembers(st, p.deps[path[0]]);
      assert blockers[0] in blockers;
      var longer := [blockers[0]] + path;
      forall i, j | 0 <= i < j < |longer| && j == i + 1 ensures longer[i] in p.deps[longer[j]] {
        assert i > 0 ==> longer[i] == path[i - 1] && longer[j] == path[j - 1];
      }
      assert BlockPath(p, st, longer);
    }
  }

  lemma {:induction false} BlockedIsReached(p: Plan, st: RunStates, id: string)
    requires id in st && st[id].Pending? && id in Propagate(p, st) && Propagate(p, st)[id].DependencyBlocked?
    ensures Reached(p, st, id)
    decreases |PendingIds(st)|
  {
    if !Settled(p, st) {
      var x :| x in st && Blockable(p, st, x);
      BlockRoundShrinks(p, st, x);
      var next := BlockRound(p, st);
      if Blockable(p, st, id) {
        RoundReach(p, st, id);
      } else {
        BlockedIsReached(p, next, id);
        var path :| BlockPath(p, next, path) && path[|path| - 1] == id;
        ExtendPath(p, st, path);
      }
    }
  }

  lemma {:induction false} PathBlocks(p: Plan, st: RunStates, path: seq<string>, i: nat)
    requires BlockPath(p, st, path) && i < |path|
    ensures path[i] in Propagate(p, st) && Propagate(p, st)[path[i]].Blocks()
  {
    PropagateFrame(p, st);
    assert Step(p, st, Propagate(p, st), path[i]);
    if i > 0 {
      PathBlocks(p, st, path, i - 1);
      BlockingAmongMembers(Propagate(p, st), p.deps[path[i]]);
      assert path[i - 1] in p.deps[path[i]];
      assert !Blockable(p, Propagate(p, st), path[i]);
    }
  }

  /** The least fixpoint: a pending node ends blocked exactly when a block path reaches it, and nothing else changes. */
  lemma PropagateExact(p: Plan, st: RunStates, id: string)
    requires id in st
    ensures id in Propagate(p, st)
    ensures !st[id].Pending? ==> Propagate(p, st)[id] == st[id]
    ensures st[id].Pending? && Reached(p, st, id) ==> Propagate(p, st)[id].DependencyBlocked?
    ensures st[id].Pending? && !Reached(p, st, id) ==> Propagate(p, st)[id] == Pending
  {
    PropagateFrame(p, st);
    assert Step(p, st, Propagate(p, st), id);
    if st[id].Pending? {
      if path :| BlockPath(p, st, path) && path[|path| - 1] == id {
        PathBlocks(p, st, path, |path| - 1);
      } else if Propagate(p, st)[id].DependencyBlocked? {
        BlockedIsReached(p, st, id);
      }
    }
  }

  /** `small` keeps the order of `big` and skips some of it. */
  ghost predicate Within(small: seq<string>, big: seq<string>) {
    Ascending(small) && forall d :: d in small ==> d in big
  }

  /** Recorded block lists: not empty, in id order, and naming only dependencies that block. */
  ghost predicate BlockListOk(p: Plan, st: RunStates, id: string) {
    id in st && id in p.deps
    && (st[id].DependencyBlocked? ==>
          st[id].blockedBy != [] && Within(st[id].blockedBy, BlockingAmong(st, p.deps[id])))
  }

  /** More blocking states never take a name off a block list. */
  lemma BlockListKept(p: Plan, before: RunStates, after: RunStates, id: string)
    requires BlockListOk(p, before, id) && id in after && after[id] == before[id]
    requires forall d :: d in before && before[d].Blocks() ==> d in after && after[d].Blocks()
    ensures BlockListOk(p, after, id)
  {
    BlockingAmongMembers(before, p.deps[id]);
    BlockingAmongMembers(after, p.deps[id]);
  }

  lemma RoundBlockLists(p: Plan, st: RunStates)
    requires Covers(p, st) && Listed(p.deps) && forall id :: id in st ==> BlockListOk(p, st, id)
    ensures forall id :: id in st ==> BlockListOk(p, BlockRound(p, st), id)
  {
    var next := BlockRound(p, st);
    forall id | id in st ensures BlockListOk(p, next, id) {
      if Blockable(p, st, id) {
        BlockingAmongMembers(st, p.deps[id]);
        BlockingAmongMembers(next, p.deps[id]);
        BlockingAmongAscends(st, p.deps[id]);
      } else {
        BlockListKept(p, st, next, id);
      }
    }
  }

  lemma {:induction false} PropagateBlockLists(p: Plan, st: RunStates)
    requires Covers(p, st) && Listed(p.deps) && forall id :: id in st ==> BlockListOk(p, st, id)
    ensures forall id :: id in st ==> BlockListOk(p, Propagate(p, st), id)
    decreases |PendingIds(st)|
  {
    if !Settled(p, st) {
      var id :| id in st && Blockable(p, st, id);
      BlockRoundShrinks(p, st, id);
      RoundBlockLists(p, st);
      PropagateBlockLists(p, BlockRound(p, st));
    }
  }

  /** Every blocked node traces back along dependencies to a node that failed, timed out or was skipped as oversize. */
  ghost predicate Trace(p: Plan, st: RunStates, path: seq<string>) {
    && path != [] && (forall i :: 0 <= i < |path| ==> path[i] in st && path[i] in p.deps)
    && (forall i :: 1 <= i < |path| ==> st[path[i]].DependencyBlocked?)
    && (forall i, j :: 0 <= i < j < |path| && j == i + 1 ==> path[i] in p.deps[path[j]])
    && st[path[0]].Blocks() && !st[path[0]].DependencyBlocked?
  }

  lemma ExtendTrace(p: Plan, st: RunStates, path: seq<string>, id: string)
    requires Trace(p, st, path) && id in st && id in p.deps && st[id].DependencyBlocked?
    requires path[|path| - 1] in p.deps[id]
    ensures Trace(p, st, path + [id])
  {
    var longer := path + [id];
    forall i, j | 0 <= i < j < |longer| && j == i + 1 ensures longer[i] in p.deps[longer[j]] {
      assert j < |path| ==> longer[i] == path[i] && longer[j] == path[j];
    }
  }

  /** A block list names a blocking dependency of lower rank. */
  lemma BlockerOf(p: Plan, st: RunStates, id: string) returns (d: string)
    requires PlanOk(p) && Covers(p, st) && BlockListOk(p, st, id) && st[id].DependencyBlocked?
    ensures d in p.deps[id] && d in st && st[d].Blocks() && RankOf(p.deps)[d] < RankOf(p.deps)[id]
  {
    d := st[id].blockedBy[0];
    assert d in st[id].blockedBy;
    BlockingAmongMembers(st, p.deps[id]);
  }

  lemma {:induction false} BlockedTraces(p: Plan, st: RunStates, id: string) returns (path: seq<string>)
    requires PlanOk(p) && Covers(p, st) && (forall x :: x in st ==> BlockListOk(p, st, x))
    requires id in st && st[id].Blocks()
    ensures Trace(p, st, path) && path[|path| - 1] == id
    decreases RankOf(p.deps)[id]
  {
    if st[id].DependencyBlocked? {
      var d := BlockerOf(p, st, id);
      var shorter := BlockedTraces(p, st, d);
      ExtendTrace(p, st, shorter, id);
      path := shorter + [id];
    } else {
      path := [id];
    }
  }
}
