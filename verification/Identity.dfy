/** The canonical form of a specification: declaration order is sorted away before the identity is taken. */
module Identity {
  import opened Lexical
  import opened Acyclicity
  import opened Specification

  /** The document whose digest is the run identity; the digest itself is taken as collision free. */
  datatype CanonicalSpec = CanonicalSpec(snapshotIdentity: string, maxConcurrency: nat, nodes: seq<NodeSpec>, edges: seq<EdgeSpec>)

  predicate EdgeBelow(a: EdgeSpec, b: EdgeSpec) {
    Below(a.from, b.from) || (a.from == b.from && Below(a.to, b.to))
  }

  predicate NodeBelow(a: NodeSpec, b: NodeSpec) {
    Below(a.id, b.id)
  }

  /** Puts `x` before the first element that is not below it, so equal keys keep their order. */
  function Insert<T>(below: (T, T) -> bool, x: T, s: seq<T>): seq<T> {
    if s == [] || !below(s[0], x) then [x] + s else [s[0]] + Insert(below, x, s[1..])
  }

  function Sort<T>(below: (T, T) -> bool, s: seq<T>): seq<T> {
    if s == [] then [] else Insert(below, s[0], Sort(below, s[1..]))
  }

  function Canonical(spec: DagSpec): CanonicalSpec {
    CanonicalSpec(spec.snapshotIdentity, spec.maxConcurrency,
                  Sort(NodeBelow, spec.nodes), Sort(EdgeBelow, spec.edges))
  }

  ghost predicate Increasing<T(!new)>(below: (T, T) -> bool, s: seq<T>) {
    forall i, j :: 0 <= i < j < |s| ==> below(s[i], s[j])
  }

  /** A strict order that is total on a pool of elements. */
  ghost predicate Orders<T(!new)>(below: (T, T) -> bool, pool: set<T>) {
    && (forall x, y :: x in pool && y in pool ==> x == y || below(x, y) || below(y, x))
    && (forall x, y :: x in pool && y in pool && below(x, y) ==> !below(y, x))
    && (forall x, y, z :: x in pool && y in pool && z in pool && below(x, y) && below(y, z) ==> below(x, z))
  }

  ghost predicate From<T(!new)>(s: seq<T>, pool: set<T>) {
    forall i :: 0 <= i < |s| ==> s[i] in pool
  }

  ghost predicate Distinct<T(!new)>(s: seq<T>) {
    forall i, j :: 0 <= i < j < |s| ==> s[i] != s[j]
  }

  lemma {:induction false} InsertKeeps<T(!new)>(below: (T, T) -> bool, x: T, s: seq<T>)
    ensures multiset(Insert(below, x, s)) == multiset(s) + multiset{x}
  {
    if s != [] && below(s[0], x) {
      InsertKeeps(below, x, s[1..]);
      assert s == [s[0]] + s[1..];
    }
  }

  lemma {:induction false} SortKeeps<T(!new)>(below: (T, T) -> bool, s: seq<T>)
    ensures multiset(Sort(below, s)) == multiset(s)
  {
    if s != [] {
      SortKeeps(below, s[1..]);
      InsertKeeps(below, s[0], Sort(below, s[1..]));
      assert s == [s[0]] + s[1..];
    }
  }

  lemma {:induction false} InsertFrom<T(!new)>(below: (T, T) -> bool, x: T, s: seq<T>, pool: set<T>)
    requires x in pool && From(s, pool)
    ensures From(Insert(below, x, s), pool)
  {
    if s != [] && below(s[0], x) {
      InsertFrom(below, x, s[1..], pool);
    }
  }

  lemma {:induction false} InsertIncreases<T(!new)>(below: (T, T) -> bool, x: T, s: seq<T>, pool: set<T>)
    requires Orders(below, pool) && x in pool && From(s, pool)
    requires Increasing(below, s) && x !in s
    ensures Increasing(below, Insert(below, x, s))
    ensures forall y :: y in Insert(below, x, s) <==> y == x || y in s
  {
    if s != [] {
      var rest := s[1..];
      assert forall k :: 0 <= k < |rest| ==> rest[k] == s[k + 1] && below(s[0], rest[k]);
      if below(s[0], x) {
        InsertIncreases(below, x, rest, pool);
        var inserted := Insert(below, x, rest);
        assert forall k :: 0 <= k < |inserted| ==> inserted[k] in inserted;
        assert forall k :: 0 <= k < |inserted| ==> below(s[0], inserted[k]);
      } else {
        assert below(x, s[0]);
      }
    }
  }

  lemma {:induction false} SortIncreases<T(!new)>(below: (T, T) -> bool, s: seq<T>, pool: set<T>)
    requires Orders(below, pool) && From(s, pool) && Distinct(s)
    ensures Increasing(below, Sort(below, s)) && From(Sort(below, s), pool)
    ensures forall y :: y in Sort(below, s) <==> y in s
  {
    if s != [] {
      SortIncreases(below, s[1..], pool);
      InsertIncreases(below, s[0], Sort(below, s[1..]), pool);
      InsertFrom(below, s[0], Sort(below, s[1..]), pool);
    }
  }

  /** An increasing sequence is determined by its elements. */
  lemma {:induction false} IncreasingUnique<T(!new)>(below: (T, T) -> bool, a: seq<T>, b: seq<T>, pool: set<T>)
    requires Orders(below, pool) && From(a, pool) && From(b, pool)
    requires Increasing(below, a) && Increasing(below, b)
    requires forall x :: x in a <==> x in b
    ensures a == b
  {
    assert a != [] ==> a[0] in a;
    assert b != [] ==> b[0] in b;
    if a != [] {
      var i :| 0 <= i < |b| && b[i] == a[0];
      var j :| 0 <= j < |a| && a[j] == b[0];
      assert a[0] == b[0];
      forall x ensures x in a[1..] <==> x in b[1..] {
        TailMembers(below, a, pool, x);
        TailMembers(below, b, pool, x);
      }
      IncreasingUnique(below, a[1..], b[1..], pool);
      assert a == [a[0]] + a[1..] && b == [b[0]] + b[1..];
    }
  }

  lemma TailMembers<T(!new)>(below: (T, T) -> bool, s: seq<T>, pool: set<T>, x: T)
    requires Orders(below, pool) && From(s, pool) && Increasing(below, s) && s != []
    ensures x in s[1..] <==> x in s && x != s[0]
  {
    if x in s[1..] {
      var k :| 0 <= k < |s| - 1 && s[1..][k] == x;
      assert below(s[0], s[k + 1]);
    }
  }

  /** Sorting erases exactly the order: equal results mean equal contents. */
  lemma SortCanonical<T(!new)>(below: (T, T) -> bool, a: seq<T>, b: seq<T>, pool: set<T>)
    requires Orders(below, pool) && From(a, pool) && Distinct(a)
    requires From(b, pool) && Distinct(b)
    ensures Sort(below, a) == Sort(below, b) ==> multiset(a) == multiset(b)
    ensures (forall x :: x in a <==> x in b) ==> Sort(below, a) == Sort(below, b)
  {
    SortKeeps(below, a);
    SortKeeps(below, b);
    SortIncreases(below, a, pool);
    SortIncreases(below, b, pool);
    if forall x :: x in a <==> x in b {
      IncreasingUnique(below, Sort(below, a), Sort(below, b), pool);
    }
  }

  lemma NodesOrdered(nodes: seq<NodeSpec>)
    requires NodesValid(nodes)
    ensures Orders(NodeBelow, set x | x in nodes) && Distinct(nodes)
  {
    forall x, y | x in nodes && y in nodes ensures x == y || NodeBelow(x, y) || NodeBelow(y, x) {
      BelowTotal(x.id, y.id);
    }
    forall x: NodeSpec, y: NodeSpec ensures !(NodeBelow(x, y) && NodeBelow(y, x)) {
      BelowAsymmetric(x.id, y.id);
    }
    forall x: NodeSpec, y: NodeSpec, z: NodeSpec | NodeBelow(x, y) && NodeBelow(y, z) ensures NodeBelow(x, z) {
      BelowTransitive(x.id, y.id, z.id);
    }
  }

  lemma EdgesOrdered(pool: set<EdgeSpec>)
    ensures Orders(EdgeBelow, pool)
  {
    forall x: EdgeSpec, y: EdgeSpec
      ensures (x == y || EdgeBelow(x, y) || EdgeBelow(y, x)) && !(EdgeBelow(x, y) && EdgeBelow(y, x))
    {
      BelowTotal(x.from, y.from);
      BelowTotal(x.to, y.to);
      BelowAsymmetric(x.from, y.from);
      BelowAsymmetric(x.to, y.to);
      BelowIrreflexive(x.from);
    }
    forall x: EdgeSpec, y: EdgeSpec, z: EdgeSpec | EdgeBelow(x, y) && EdgeBelow(y, z) ensures EdgeBelow(x, z) {
      EdgeBelowTransitive(x, y, z);
    }
  }

  lemma EdgeBelowTransitive(x: EdgeSpec, y: EdgeSpec, z: EdgeSpec)
    requires EdgeBelow(x, y) && EdgeBelow(y, z)
    ensures EdgeBelow(x, z)
  {
    BelowIrreflexive(x.from);
    if x.from == y.from == z.from {
      BelowTransitive(x.to, y.to, z.to);
    } else if Below(x.from, y.from) && Below(y.from, z.from) {
      BelowTransitive(x.from, y.from, z.from);
    }
  }

  /** Over the same elements, the node sort and the edge sort forget declaration order. */
  lemma SortsForget(a: DagSpec, b: DagSpec)
    requires ValidSpec(a) && ValidSpec(b)
    requires forall x :: x in a.nodes <==> x in b.nodes
    requires forall x :: x in a.edges <==> x in b.edges
    ensures Canonical(a).nodes == Canonical(b).nodes && Canonical(a).edges == Canonical(b).edges
  {
    NodesOrdered(a.nodes);
    NodesOrdered(b.nodes);
    SortCanonical(NodeBelow, a.nodes, b.nodes, set x | x in a.nodes);
    var pool := set x | x in a.edges;
    EdgesOrdered(pool);
    SortCanonical(EdgeBelow, a.edges, b.edges, pool);
  }

  ghost predicate SameContents(a: DagSpec, b: DagSpec) {
    && a.snapshotIdentity == b.snapshotIdentity && a.maxConcurrency == b.maxConcurrency
    && multiset(a.nodes) == multiset(b.nodes) && multiset(a.edges) == multiset(b.edges)
  }

  lemma CanonicalKeeps(spec: DagSpec)
    ensures multiset(Canonical(spec).nodes) == multiset(spec.nodes)
    ensures multiset(Canonical(spec).edges) == multiset(spec.edges)
  {
    SortKeeps(NodeBelow, spec.nodes);
    SortKeeps(EdgeBelow, spec.edges);
  }

  lemma SameMembers<T>(a: seq<T>, b: seq<T>)
    requires multiset(a) == multiset(b)
    ensures forall x :: x in a <==> x in b
  {
    assert forall x :: x in a <==> x in multiset(a);
    assert forall x :: x in b <==> x in multiset(b);
  }

  /** Two valid specifications share an identity exactly when they differ in declaration order only. */
  lemma IdentityIgnoresOrderOnly(a: DagSpec, b: DagSpec)
    requires ValidSpec(a) && ValidSpec(b)
    ensures Canonical(a) == Canonical(b) <==> SameContents(a, b)
  {
    CanonicalKeeps(a);
    CanonicalKeeps(b);
    if SameContents(a, b) {
      SameMembers(a.nodes, b.nodes);
      SameMembers(a.edges, b.edges);
      SortsForget(a, b);
    }
  }

  lemma SameNodes(a: DagSpec, b: DagSpec)
    requires ValidSpec(a) && ValidSpec(b) && forall x :: x in a.nodes <==> x in b.nodes
    ensures PlanOf(a).nodes == PlanOf(b).nodes
  {
    PlanSays(a);
    PlanSays(b);
    var p, q := PlanOf(a).nodes, PlanOf(b).nodes;
    hide PlanOf, ValidSpec;
    NodeUnderId(a);
    NodeUnderId(b);
    forall id | id in p ensures id in q && q[id] == p[id] {
      assert p[id] in a.nodes;
    }
    forall id | id in q ensures id in p && p[id] == q[id] {
      assert q[id] in b.nodes;
    }
  }

  lemma NodeUnderId(spec: DagSpec)
    ensures forall id :: id in PlanOf(spec).nodes ==> PlanOf(spec).nodes[id].id == id
  {
    NodesUnderIds(spec.nodes);
  }

  lemma {:induction false} NodesUnderIds(nodes: seq<NodeSpec>)
    ensures forall id :: id in NodesById(nodes) ==> NodesById(nodes)[id].id == id
  {
    if nodes != [] {
      NodesUnderIds(nodes[..|nodes| - 1]);
    }
  }

  /** Specifications that differ in declaration order only make the same plan. */
  lemma SamePlan(a: DagSpec, b: DagSpec)
    requires ValidSpec(a) && ValidSpec(b) && SameContents(a, b)
    ensures PlanOf(a).nodes == PlanOf(b).nodes && PlanOf(a).deps == PlanOf(b).deps
  {
    SameMembers(a.nodes, b.nodes);
    SameMembers(a.edges, b.edges);
    SameNodes(a, b);
    forall id ensures Sources(a.edges, id) == Sources(b.edges, id) {}
    assert NodeIds(a.nodes) == NodeIds(b.nodes) by {
      assert PlanOf(a).nodes.Keys == PlanOf(b).nodes.Keys;
    }
  }
}
