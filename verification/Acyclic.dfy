/** Dependency relations, cycles, and the counting check that accepts exactly the acyclic ones. */
module Acyclicity {
  import opened Lexical

  type Dependencies = map<string, seq<string>>

  /** Every dependency is itself a node, and every list is sorted without repeats. */
  ghost predicate Listed(deps: Dependencies) {
    && (forall id :: id in deps ==> Ascending(deps[id]))
    && (forall id, d :: id in deps && d in deps[id] ==> d in deps)
  }

  /** A rank that every dependency strictly lowers. */
  ghost predicate Ranks(rank: map<string, nat>, deps: Dependencies) {
    && (forall id :: id in deps ==> id in rank)
    && (forall id, d :: id in deps && d in deps[id] ==> d in rank && rank[d] < rank[id])
  }

  ghost predicate Acyclic(deps: Dependencies) {
    exists rank :: Ranks(rank, deps)
  }

  ghost function RankOf(deps: Dependencies): (rank: map<string, nat>)
    requires Acyclic(deps)
    ensures Ranks(rank, deps)
  {
    var rank :| Ranks(rank, deps); rank
  }

  /** Each node of the walk depends on the next one. */
  ghost predicate Walk(deps: Dependencies, walk: seq<string>) {
    && (forall i :: 0 <= i < |walk| ==> walk[i] in deps)
    && (forall i, j :: 0 <= i < j < |walk| && j == i + 1 ==> walk[j] in deps[walk[i]])
  }

  /** A closed walk: the last node depends on the first. */
  ghost predicate Cycle(deps: Dependencies, walk: seq<string>) {
    walk != [] && Walk(deps, walk) && walk[0] in deps[walk[|walk| - 1]]
  }

  lemma {:induction false} WalkLowersRank(deps: Dependencies, rank: map<string, nat>, walk: seq<string>, i: nat)
    requires Ranks(rank, deps) && Walk(deps, walk) && i < |walk|
    ensures rank[walk[i]] <= rank[walk[0]]
  {
    if i > 0 {
      WalkLowersRank(deps, rank, walk, i - 1);
      assert walk[i] in deps[walk[i - 1]];
    }
  }

  lemma CycleHasNoRank(deps: Dependencies, walk: seq<string>)
    requires Cycle(deps, walk)
    ensures !Acyclic(deps)
  {
    forall rank: map<string, nat> ensures !Ranks(rank, deps) {
      if Ranks(rank, deps) {
        WalkLowersRank(deps, rank, walk, |walk| - 1);
      }
    }
  }

  ghost predicate DependsInto(deps: Dependencies, id: string, pool: set<string>) {
    id in deps && exists d :: d in deps[id] && d in pool
  }

  /** A set every member of which depends on another member. */
  ghost predicate Trap(deps: Dependencies, trap: set<string>) {
    trap != {} && forall id :: id in trap ==> DependsInto(deps, id, trap)
  }

  /** A walk inside a trap can be continued until it must repeat a node. */
  lemma {:induction false} LongWalk(deps: Dependencies, trap: set<string>, n: nat) returns (walk: seq<string>)
    requires Trap(deps, trap)
    ensures |walk| == n + 1 && Walk(deps, walk) && forall x :: x in walk ==> x in trap
  {
    if n == 0 {
      var x :| x in trap;
      walk := [x];
    } else {
      var shorter := LongWalk(deps, trap, n - 1);
      var last := shorter[|shorter| - 1];
      assert last in shorter && DependsInto(deps, last, trap);
      var d :| d in deps[last] && d in trap;
      walk := shorter + [d];
    }
  }

  /** Pigeonhole: a sequence longer than the set it draws from repeats an element. */
  lemma {:induction false} Repeats(walk: seq<string>, pool: set<string>) returns (i: nat, j: nat)
    requires forall x :: x in walk ==> x in pool
    requires |walk| > |pool|
    ensures i < j < |walk| && walk[i] == walk[j]
    decreases |walk|
  {
    var x, init := walk[|walk| - 1], walk[..|walk| - 1];
    assert x in walk;
    if x in init {
      i :| 0 <= i < |init| && init[i] == x;
      j := |walk| - 1;
    } else {
      i, j := Repeats(init, pool - {x});
    }
  }

  lemma TrapHoldsCycle(deps: Dependencies, trap: set<string>) returns (walk: seq<string>)
    requires Trap(deps, trap)
    ensures Cycle(deps, walk)
  {
    var long := LongWalk(deps, trap, |trap|);
    var i, j := Repeats(long, trap);
    walk := long[i..j];
    assert walk[|walk| - 1] == long[j - 1] && long[j] in deps[long[j - 1]];
  }

  /** How many entries of a dependency list have not been visited yet. */
  function Unvisited(ids: seq<string>, visited: set<string>): nat {
    if ids == [] then 0
    else (if ids[0] in visited then 0 else 1) + Unvisited(ids[1..], visited)
  }

  lemma {:induction false} UnvisitedZero(ids: seq<string>, visited: set<string>)
    ensures Unvisited(ids, visited) == 0 <==> forall x :: x in ids ==> x in visited
  {
    if ids != [] {
      UnvisitedZero(ids[1..], visited);
      assert forall x :: x in ids <==> x == ids[0] || x in ids[1..];
    }
  }

  lemma {:induction false} UnvisitedStart(ids: seq<string>)
    ensures Unvisited(ids, {}) == |ids|
  {
    if ids != [] {
      UnvisitedStart(ids[1..]);
    }
  }

  lemma {:induction false} UnvisitedStep(ids: seq<string>, visited: set<string>, id: string)
    requires Ascending(ids) && id !in visited
    ensures Unvisited(ids, visited) == Unvisited(ids, visited + {id}) + (if id in ids then 1 else 0)
  {
    if ids != [] {
      UnvisitedStep(ids[1..], visited, id);
      if ids[0] in ids[1..] {
        var k :| 1 <= k < |ids| && ids[k] == ids[0];
        AscendingDistinct(ids, 0, k);
      }
      assert id in ids <==> id == ids[0] || id in ids[1..];
    }
  }

  /** The visited nodes are ranked by the order of their visits, after everything they depend on. */
  ghost predicate Visited(deps: Dependencies, seen: set<string>, rank: map<string, nat>) {
    && seen <= deps.Keys && rank.Keys == seen
    && (forall id :: id in seen ==> rank[id] < |seen|)
    && (forall id, d :: id in seen && d in deps[id] ==> d in seen && rank[d] < rank[id])
  }

  lemma VisitNext(deps: Dependencies, seen: set<string>, rank: map<string, nat>, id: string)
    requires Visited(deps, seen, rank) && id in deps && id !in seen
    requires forall d :: d in deps[id] ==> d in seen
    ensures Visited(deps, seen + {id}, rank[id := |seen|])
  {
    var rank' := rank[id := |seen|];
    assert |seen + {id}| == |seen| + 1;
    forall x, d | x in seen + {id} && d in deps[x] ensures d in seen + {id} && rank'[d] < rank'[x] {
      assert d in seen;
    }
  }

  lemma Shrinks(whole: set<string>, part: set<string>, id: string)
    requires id in whole && id !in part
    ensures |whole - (part + {id})| < |whole - part|
    ensures |part + {id}| == |part| + 1
  {
    assert whole - part == (whole - (part + {id})) + {id};
  }

  /** The pending counts are exact, and the ready nodes are those with nothing pending. */
  ghost predicate Counted(deps: Dependencies, seen: set<string>, remaining: map<string, nat>, ready: set<string>) {
    && remaining.Keys == deps.Keys
    && (forall id :: id in deps ==> remaining[id] == Unvisited(deps[id], seen))
    && (forall id :: id in ready <==> id in deps && id !in seen && remaining[id] == 0)
  }

  lemma Finished(deps: Dependencies, seen: set<string>, rank: map<string, nat>, remaining: map<string, nat>)
    requires Listed(deps) && Visited(deps, seen, rank) && Counted(deps, seen, remaining, {})
    ensures |seen| == |deps| <==> Acyclic(deps)
    ensures |seen| != |deps| ==> exists walk :: Cycle(deps, walk)
  {
    assert |deps| == |deps.Keys|;
    if seen == deps.Keys {
      assert Ranks(rank, deps);
    } else {
      var trap := deps.Keys - seen;
      assert |trap| == |deps.Keys| - |seen|;
      forall id | id in trap ensures DependsInto(deps, id, trap) {
        UnvisitedZero(deps[id], seen);
        var d :| d in deps[id] && d !in seen;
        assert d in trap;
      }
      var x :| x in deps && x !in seen;
      assert x in trap;
      var walk := TrapHoldsCycle(deps, trap);
      CycleHasNoRank(deps, walk);
    }
  }

  lemma CountedStart(deps: Dependencies, remaining: map<string, nat>, ready: set<string>)
    requires remaining == map id | id in deps :: |deps[id]|
    requires ready == set id | id in deps && remaining[id] == 0
    ensures Counted(deps, {}, remaining, ready)
  {
    forall id | id in deps ensures remaining[id] == Unvisited(deps[id], {}) {
      UnvisitedStart(deps[id]);
    }
  }

  lemma NothingPending(deps: Dependencies, seen: set<string>, rank: map<string, nat>, remaining: map<string, nat>, ready: set<string>, id: string)
    requires Visited(deps, seen, rank) && Counted(deps, seen, remaining, ready) && id in ready
    ensures forall d :: d in deps[id] ==> d in seen
    ensures forall x :: x in seen && x in deps ==> id !in deps[x]
  {
    UnvisitedZero(deps[id], seen);
  }

  /** Counts one visited node off the pending counts of its dependents, and readies those that reach zero. */
  method Release(deps: Dependencies, id: string, ghost seen: set<string>,
                 counts: map<string, nat>, waiting: set<string>)
    returns (remaining: map<string, nat>, ready: set<string>)
    requires Listed(deps) && Counted(deps, seen, counts, waiting)
    requires id in waiting && id !in deps[id] && forall x :: x in seen && x in deps ==> id !in deps[x]
    ensures Counted(deps, seen + {id}, remaining, ready)
  {
    remaining, ready := counts, waiting - {id};
    var targets := deps.Keys;
    while targets != {}
      invariant targets <= deps.Keys && remaining.Keys == deps.Keys
      invariant forall x :: x in targets ==> remaining[x] == Unvisited(deps[x], seen)
      invariant forall x :: x in deps && x !in targets ==> remaining[x] == Unvisited(deps[x], seen + {id})
      invariant forall x :: x in ready <==> x in deps && x !in seen + {id} && remaining[x] == 0
    {
      var target := First(targets);
      UnvisitedStep(deps[target], seen, id);
      targets := targets - {target};
      if id in deps[target] {
        remaining := remaining[target := remaining[target] - 1];
        if remaining[target] == 0 {
          ready := ready + {target};
        }
      }
    }
  }

  /** Kahn's algorithm over a pending count per node and an ordered ready set. */
  method ValidateAcyclic(nodeCount: nat, deps: Dependencies) returns (ok: bool)
    requires Listed(deps) && nodeCount == |deps|
    ensures ok <==> Acyclic(deps)
    ensures !ok ==> exists walk :: Cycle(deps, walk)
  {
    var remaining: map<string, nat> := map id | id in deps :: |deps[id]|;
    var ready := set id | id in deps && remaining[id] == 0;
    var visited := 0;
    ghost var seen: set<string>, rank: map<string, nat> := {}, map[];
    CountedStart(deps, remaining, ready);
    while ready != {}
      invariant Visited(deps, seen, rank) && Counted(deps, seen, remaining, ready) && visited == |seen|
      decreases |deps.Keys - seen|
    {
      var id := First(ready);
      NothingPending(deps, seen, rank, remaining, ready, id);
      VisitNext(deps, seen, rank, id);
      Shrinks(deps.Keys, seen, id);
      visited := visited + 1;
      remaining, ready := Release(deps, id, seen, remaining, ready);
      rank, seen := rank[id := |seen|], seen + {id};
    }
    Finished(deps, seen, rank, remaining);
    ok := visited == nodeCount;
  }

  /** The relation the counting check decides: a rank exists exactly when no closed walk does. */
  lemma AcyclicIffNoCycle(deps: Dependencies)
    requires Listed(deps)
    ensures Acyclic(deps) <==> !exists walk :: Cycle(deps, walk)
  {
    if walk :| Cycle(deps, walk) {
      CycleHasNoRank(deps, walk);
    } else {
      var rank := GrowRank(deps, {}, map[]);
    }
  }

  lemma Bottom(deps: Dependencies, pool: set<string>) returns (id: string)
    requires Listed(deps) && pool != {} && pool <= deps.Keys && !exists walk :: Cycle(deps, walk)
    ensures id in pool && !DependsInto(deps, id, pool)
  {
    if Trap(deps, pool) {
      var walk := TrapHoldsCycle(deps, pool);
    }
    id :| id in pool && !DependsInto(deps, id, pool);
  }

  /** Without a cycle some unranked node depends on ranked ones only, so the ranking can always grow. */
  lemma {:induction false} GrowRank(deps: Dependencies, seen: set<string>, partial: map<string, nat>) returns (rank: map<string, nat>)
    requires Listed(deps) && !exists walk :: Cycle(deps, walk)
    requires Visited(deps, seen, partial)
    ensures Ranks(rank, deps)
    decreases |deps.Keys - seen|
  {
    rank := partial;
    if seen != deps.Keys {
      assert deps.Keys == seen + (deps.Keys - seen);
      var id := Bottom(deps, deps.Keys - seen);
      VisitNext(deps, seen, partial, id);
      Shrinks(deps.Keys, seen, id);
      rank := GrowRank(deps, seen + {id}, partial[id := |seen|]);
    }
  }
}
