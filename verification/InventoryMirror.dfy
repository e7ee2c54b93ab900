/** The inventory mirror: directories and files created under a private root, and removed again. */
module InventoryMirror {

  /** A path below the root, as its components; the root itself is the empty path. */
  type Path = seq<string>

  /** What stands at a path; a new object has an identity no other had. */
  datatype Entry = Entry(dir: bool, id: nat)

  type Tree = map<Path, Entry>

  datatype Node = Node(path: Path, dir: bool, id: nat)

  function Parent(p: Path): Path
    requires p != []
  {
    p[..|p| - 1]
  }

  /** A new object can stand at a path: nothing is there and its parent is a directory. */
  predicate Creatable(tree: Tree, p: Path) {
    p != [] && p !in tree && Parent(p) in tree && tree[Parent(p)].dir
  }

  predicate HasChild(tree: Tree, p: Path) {
    exists q | q in tree :: ChildOf(q, p)
  }

  predicate ChildOf(q: Path, p: Path) {
    q != [] && Parent(q) == p
  }

  // ---------------------------------------------------------------- the stack of created objects

  /** The tree made of the objects created so far. */
  ghost function TreeOf(nodes: seq<Node>): Tree {
    if nodes == [] then map[]
    else
      var last := nodes[|nodes| - 1];
      TreeOf(nodes[..|nodes| - 1])[last.path := Entry(last.dir, last.id)]
  }

  /** The root first, then objects each created where its parent directory already stood. */
  ghost predicate Stacked(nodes: seq<Node>) {
    nodes == [] ||
    (var front, last := nodes[..|nodes| - 1], nodes[|nodes| - 1];
     Stacked(front) && if front == [] then last.path == [] && last.dir else Creatable(TreeOf(front), last.path))
  }

  lemma {:induction false} TreeFrom(nodes: seq<Node>, p: Path)
    requires Stacked(nodes) && p in TreeOf(nodes)
    ensures exists i :: 0 <= i < |nodes| && nodes[i].path == p && TreeOf(nodes)[p] == Entry(nodes[i].dir, nodes[i].id)
  {
    var front, last := nodes[..|nodes| - 1], nodes[|nodes| - 1];
    if p != last.path {
      TreeFrom(front, p);
      var i :| 0 <= i < |front| && front[i].path == p && TreeOf(front)[p] == Entry(front[i].dir, front[i].id);
      assert nodes[i] == front[i];
    }
  }

  /** Parents precede children: every object but the root comes after the directory it stands in. */
  lemma {:induction false} ParentsPrecede(nodes: seq<Node>, j: nat)
    requires Stacked(nodes) && 0 < j < |nodes|
    ensures nodes[j].path != [] && exists i :: 0 <= i < j && nodes[i].dir && nodes[i].path == Parent(nodes[j].path)
    decreases |nodes|
  {
    var front := nodes[..|nodes| - 1];
    if j < |nodes| - 1 {
      ParentsPrecede(front, j);
      var i :| 0 <= i < j && front[i].dir && front[i].path == Parent(front[j].path);
      assert nodes[i] == front[i];
    } else {
      TreeFrom(front, Parent(nodes[j].path));
      var i :| 0 <= i < |front| && front[i].path == Parent(nodes[j].path) && front[i].dir;
      assert nodes[i] == front[i];
    }
  }

  lemma {:induction false} ParentStands(nodes: seq<Node>, q: Path)
    requires Stacked(nodes) && q in TreeOf(nodes) && q != []
    ensures Parent(q) in TreeOf(nodes)
  {
    var front, last := nodes[..|nodes| - 1], nodes[|nodes| - 1];
    if q != last.path {
      ParentStands(front, q);
    }
  }

  /** The object created last still stands, nothing stands in it, and without it the tree is what it was before. */
  lemma LastRemovable(nodes: seq<Node>)
    requires nodes != [] && Stacked(nodes)
    ensures var last, front := nodes[|nodes| - 1], nodes[..|nodes| - 1];
            && last.path in TreeOf(nodes) && TreeOf(nodes)[last.path] == Entry(last.dir, last.id)
            && !HasChild(TreeOf(nodes), last.path) && Stacked(front) && TreeOf(nodes) - {last.path} == TreeOf(front)
  {
    var last, front := nodes[|nodes| - 1], nodes[..|nodes| - 1];
    assert last.path !in TreeOf(front);
    forall q | q in TreeOf(nodes) ensures !ChildOf(q, last.path) {
      if q != [] && q != last.path {
        ParentStands(front, q);
      }
    }
  }

  lemma Pushes(nodes: seq<Node>, n: Node)
    requires nodes != [] && Stacked(nodes) && Creatable(TreeOf(nodes), n.path)
    ensures Stacked(nodes + [n]) && TreeOf(nodes + [n]) == TreeOf(nodes)[n.path := Entry(n.dir, n.id)]
  {
    assert (nodes + [n])[..|nodes|] == nodes;
  }

  // ---------------------------------------------------------------- the directories a mirror needs

  /** A proper ancestor, below the root, of one of the paths. */
  ghost predicate Needed(paths: seq<Path>, d: Path) {
    exists i :: 0 <= i < |paths| && Above(d, paths[i])
  }

  predicate Above(d: Path, p: Path) {
    d != [] && d < p
  }

  method Directories(paths: seq<Path>) returns (dirs: set<Path>)
    ensures forall d :: d in dirs <==> Needed(paths, d)
  {
    dirs := {};
    for i := 0 to |paths|
      invariant forall d :: d in dirs <==> exists k :: 0 <= k < i && Above(d, paths[k])
    {
      var parent := paths[i];
      ghost var before := dirs;
      while |parent| > 1
        invariant parent <= paths[i]
        invariant forall d :: d in dirs <==> d in before || (Above(d, paths[i]) && |d| >= |parent|)
      {
        ghost var below := parent;
        parent := Parent(parent);
        assert parent == paths[i][..|parent|];
        assert forall d: Path :: Above(d, paths[i]) && |d| >= |parent| ==> d == parent || |d| >= |below|;
        dirs := dirs + {parent};
      }
    }
  }

  lemma {:induction false} ShallowestExists(dirs: set<Path>)
    requires dirs != {}
    ensures exists d :: Shallowest(dirs, d)
    decreases |dirs|
  {
    var d :| d in dirs;
    if dirs == {d} {
      assert Shallowest(dirs, d);
    } else {
      ShallowestExists(dirs - {d});
      var e :| Shallowest(dirs - {d}, e);
      assert Shallowest(dirs, if |d| <= |e| then d else e);
    }
  }

  predicate Shallowest(dirs: set<Path>, d: Path) {
    d in dirs && forall e :: e in dirs ==> |d| <= |e|
  }

  lemma ParentNeeded(paths: seq<Path>, d: Path)
    requires Needed(paths, d)
    ensures d != [] && |Parent(d)| < |d| && (Parent(d) == [] || Needed(paths, Parent(d)))
  {
    var i :| 0 <= i < |paths| && Above(d, paths[i]);
    assert Parent(d) != [] ==> Above(Parent(d), paths[i]);
  }

  ghost predicate Bare(tree: Tree) {
    tree.Keys == {[]} && tree[[]].dir
  }

  /** The root and the needed directories but the remaining ones. */
  ghost predicate Standing(tree: Tree, paths: seq<Path>, remaining: set<Path>) {
    && (forall d :: d in remaining ==> Needed(paths, d))
    && (forall p :: p in tree <==> p == [] || (Needed(paths, p) && p !in remaining))
    && (forall p :: p in tree ==> tree[p].dir)
  }

  lemma DirectoryPlace(tree: Tree, paths: seq<Path>, remaining: set<Path>, d: Path)
    requires Standing(tree, paths, remaining) && Shallowest(remaining, d)
    ensures Creatable(tree, d)
    ensures forall id: nat :: Standing(tree[d := Entry(true, id)], paths, remaining - {d})
  {
    ParentNeeded(paths, d);
  }

  /** The root, every needed directory and the first n files, and nothing else. */
  ghost predicate Complete(tree: Tree, paths: seq<Path>, n: nat)
    requires n <= |paths|
  {
    && (forall p :: p in tree <==> p == [] || Needed(paths, p) || p in paths[..n])
    && (forall p :: p in tree ==> (tree[p].dir <==> p == [] || Needed(paths, p)))
  }

  /** A file can be created next exactly when its path is not the root's and no other path needs it as a directory. */
  lemma FilePlace(tree: Tree, paths: seq<Path>, i: nat)
    requires i < |paths| && Complete(tree, paths, i)
    requires forall i, j :: 0 <= i < j < |paths| ==> paths[i] != paths[j]
    ensures Creatable(tree, paths[i]) <==> paths[i] != [] && !Needed(paths, paths[i])
    ensures Creatable(tree, paths[i]) ==> forall id: nat :: Complete(tree[paths[i] := Entry(false, id)], paths, i + 1)
  {
    var p := paths[i];
    assert paths[..i + 1] == paths[..i] + [p] && p !in paths[..i];
    if p != [] && Parent(p) != [] {
      assert Above(Parent(p), paths[i]);
    }
  }

  // ---------------------------------------------------------------- the mirror

  class Mirror {
    var tree: Tree
    var nodes: seq<Node>
    var nextId: nat

    /** Nobody else changed the tree: it holds exactly what was created. */
    ghost predicate Undisturbed()
      reads this
    {
      Stacked(nodes) && tree == TreeOf(nodes)
    }

    /** Creates the root. */
    constructor ()
      ensures Undisturbed() && nodes == [Node([], true, 0)] && tree == map[[] := Entry(true, 0)]
    {
      tree, nodes, nextId := map[[] := Entry(true, 0)], [Node([], true, 0)], 1;
      new;
      RootStacked();
    }

    /** Creates one object and pushes it. */
    method CreateEntry(path: Path, dir: bool) returns (ok: bool)
      requires Undisturbed() && nodes != []
      modifies this
      ensures Undisturbed() && nodes != [] && ok == Creatable(old(tree), path)
      ensures ok ==> tree == old(tree)[path := Entry(dir, old(nextId))] && nodes == old(nodes) + [Node(path, dir, old(nextId))]
      ensures !ok ==> tree == old(tree) && nodes == old(nodes)
    {
      ok := Creatable(tree, path);
      if ok {
        Pushes(nodes, Node(path, dir, nextId));
        tree := tree[path := Entry(dir, nextId)];
        nodes := nodes + [Node(path, dir, nextId)];
        nextId := nextId + 1;
      }
    }

    /** Creates every needed directory, parents first, then every file; a mirror that cannot be completed is removed. */
    method Create(paths: seq<Path>) returns (ok: bool)
      requires Undisturbed() && nodes != [] && Bare(tree)
      requires forall i, j :: 0 <= i < j < |paths| ==> paths[i] != paths[j]
      modifies this
      ensures ok <==> forall i :: 0 <= i < |paths| ==> paths[i] != [] && !Needed(paths, paths[i])
      ensures ok ==> Undisturbed() && Complete(tree, paths, |paths|)
      ensures !ok ==> nodes == [] && tree == map[]
    {
      CreateDirectories(paths);
      for i := 0 to |paths|
        invariant Undisturbed() && nodes != [] && Complete(tree, paths, i)
        invariant forall k :: 0 <= k < i ==> paths[k] != [] && !Needed(paths, paths[k])
      {
        FilePlace(tree, paths, i);
        var created := CreateEntry(paths[i], false);
        if !created {
          var _ := Cleanup();
          return false;
        }
      }
      ok := true;
    }

    /** By depth, so that each parent stands before its children; the order within a depth is free. */
    method CreateDirectories(paths: seq<Path>)
      requires Undisturbed() && nodes != [] && Bare(tree)
      modifies this
      ensures Undisturbed() && nodes != [] && Complete(tree, paths, 0)
    {
      var remaining := Directories(paths);
      while remaining != {}
        invariant Undisturbed() && nodes != [] && Standing(tree, paths, remaining)
        decreases |remaining|
      {
        ShallowestExists(remaining);
        var d :| Shallowest(remaining, d);
        DirectoryPlace(tree, paths, remaining, d);
        var created := CreateEntry(d, true);
        remaining := remaining - {d};
      }
    }

    /** Removes what was created, last first; what is no longer what was created, or no longer empty, stays and is reported. */
    method Cleanup() returns (failures: seq<Path>)
      modifies this
      ensures nodes == []
      ensures old(Undisturbed()) ==> tree == map[] && failures == []
      ensures OnlyRemoves(old(tree), old(nodes), tree)
    {
      failures := [];
      ghost var given := nodes;
      while nodes != []
        invariant nodes <= given
        invariant old(Undisturbed()) ==> Undisturbed() && failures == []
        invariant OnlyRemoves(old(tree), given, tree)
        decreases |nodes|
      {
        var node := nodes[|nodes| - 1];
        assert given[|nodes| - 1] == node;
        if old(Undisturbed()) {
          LastRemovable(nodes);
        }
        var stands := node.path in tree && tree[node.path] == Entry(node.dir, node.id);
        var busy := node.dir && HasChild(tree, node.path);
        if stands && !busy {
          tree := tree - {node.path};
        } else {
          failures := failures + [node.path];
        }
        nodes := nodes[..|nodes| - 1];
      }
    }
  }

  /** Nothing is added or changed, and only objects of the stack are removed. */
  ghost predicate OnlyRemoves(before: Tree, nodes: seq<Node>, after: Tree) {
    && (forall p :: p in after ==> p in before && after[p] == before[p])
    && (forall p :: p in before && p !in after ==> Node(p, before[p].dir, before[p].id) in nodes)
  }

  lemma RootStacked()
    ensures Stacked([Node([], true, 0)]) && TreeOf([Node([], true, 0)]) == map[[] := Entry(true, 0)]
  {
    assert [Node([], true, 0)][..0] == [];
  }
}
