/** The inode table of a mount: an in-memory tree in which every node knows its parent, its children by name
    and the path it is reached at. */
module Inodes {
  import opened Tables

  const ROOT: nat := 1

  /** `db` is the row in `vm_fs`, `view` the path the kernel reaches the node at; they differ below a link. */
  datatype Node = Node(db: Path, view: Path, kind: Kind, parent: nat, children: map<Name, nat>)
  type Nodes = map<nat, Node>

  function ParentOf(v: Path): Path requires v != [] { v[..|v| - 1] }
  function Last(v: Path): Name requires v != [] { v[|v| - 1] }

  // ------------------------------------------------------------------ the invariant

  ghost predicate UpOk(nodes: Nodes, i: nat) {
    i in nodes && i != ROOT ==>
      var n := nodes[i];
      && n.view != [] && n.parent in nodes && nodes[n.parent].view == ParentOf(n.view)
      && Last(n.view) in nodes[n.parent].children && nodes[n.parent].children[Last(n.view)] == i
  }

  ghost predicate DownOk(nodes: Nodes, i: nat, name: Name) {
    i in nodes && name in nodes[i].children ==>
      var j := nodes[i].children[name];
      nodes[i].kind == Dir && j in nodes && j != ROOT && nodes[j].parent == i && nodes[j].view == nodes[i].view + [name]
  }

  /** Parent and child links are inverse to each other, and a child's path is its parent's plus its name. */
  ghost predicate TreeOk(nodes: Nodes) {
    && ROOT in nodes && nodes[ROOT].view == [] && nodes[ROOT].kind == Dir
    && (forall i {:trigger UpOk(nodes, i)} :: UpOk(nodes, i))
    && (forall i, name {:trigger DownOk(nodes, i, name)} :: DownOk(nodes, i, name))
  }

  /** The paths are unique, so the links have no cycle and no two nodes are reached at one path. */
  lemma {:induction false} UniqueViews(nodes: Nodes, i: nat, j: nat)
    requires TreeOk(nodes) && i in nodes && j in nodes && nodes[i].view == nodes[j].view
    ensures i == j
    decreases |nodes[i].view|
  {
    assert UpOk(nodes, i) && UpOk(nodes, j);
    if i != ROOT && j != ROOT {
      UniqueViews(nodes, nodes[i].parent, nodes[j].parent);
    }
  }

  // ------------------------------------------------------------------ descendants

  /** `j` is `r` or below it. */
  ghost predicate Within(nodes: Nodes, r: nat, j: nat) {
    r in nodes && j in nodes && nodes[r].view <= nodes[j].view
  }

  lemma WithinUp(nodes: Nodes, r: nat, j: nat)
    requires TreeOk(nodes) && Within(nodes, r, j) && j != r
    ensures j != ROOT && Within(nodes, r, nodes[j].parent)
  {
    assert UpOk(nodes, j) && UpOk(nodes, r);
    if nodes[j].view == nodes[r].view { UniqueViews(nodes, j, r); assert false; }
    var v, w := nodes[r].view, nodes[j].view;
    assert v == w[..|v|] && |v| < |w|;
    assert w[..|w| - 1][..|v|] == w[..|v|];
  }

  lemma WithinDown(nodes: Nodes, r: nat, j: nat, name: Name)
    requires TreeOk(nodes) && Within(nodes, r, j) && name in nodes[j].children
    ensures Within(nodes, r, nodes[j].children[name]) && nodes[j].children[name] != r
  {
    assert DownOk(nodes, j, name);
  }

  ghost predicate ClosedAt(nodes: Nodes, xs: set<nat>, i: nat, name: Name) {
    i in xs && i in nodes && name in nodes[i].children ==> nodes[i].children[name] in xs
  }

  /** A set that holds `r` and the children of all its members holds every descendant of `r`. */
  lemma {:induction false} ClosedCovers(nodes: Nodes, r: nat, xs: set<nat>, j: nat)
    requires TreeOk(nodes) && r in xs && Within(nodes, r, j)
    requires forall i, name {:trigger ClosedAt(nodes, xs, i, name)} :: ClosedAt(nodes, xs, i, name)
    ensures j in xs
    decreases |nodes[j].view|
  {
    if j != r {
      assert UpOk(nodes, j);
      WithinUp(nodes, r, j);
      ClosedCovers(nodes, r, xs, nodes[j].parent);
      assert ClosedAt(nodes, xs, nodes[j].parent, Last(nodes[j].view));
    }
  }

  // ------------------------------------------------------------------ adding a node

  lemma AddKeeps(nodes: Nodes, parent: nat, name: Name, ino: nat, db: Path, kind: Kind)
    requires TreeOk(nodes) && parent in nodes && nodes[parent].kind == Dir && name !in nodes[parent].children
    requires ino !in nodes
    ensures TreeOk(Added(nodes, parent, name, ino, db, kind))
  {
    var after := Added(nodes, parent, name, ino, db, kind);
    forall i ensures UpOk(after, i) {
      assert UpOk(nodes, i);
    }
    forall i, n ensures DownOk(after, i, n) { assert DownOk(nodes, i, n); }
  }

  function Added(nodes: Nodes, parent: nat, name: Name, ino: nat, db: Path, kind: Kind): Nodes
    requires parent in nodes
  {
    var p := nodes[parent];
    nodes[parent := p.(children := p.children[name := ino])][ino := Node(db, p.view + [name], kind, parent, map[])]
  }

  // ------------------------------------------------------------------ removing a subtree

  function Unlinked(n: Node, name: Name): Node {
    n.(children := n.children - {name})
  }

  ghost predicate RemovedAt(nodes: Nodes, after: Nodes, r: nat, j: nat)
    requires r in nodes && nodes[r].view != []
  {
    && (j in after <==> j in nodes && !Within(nodes, r, j))
    && (j in after ==> after[j] == if j == nodes[r].parent then Unlinked(nodes[j], Last(nodes[r].view)) else nodes[j])
  }

  lemma RemoveKeeps(nodes: Nodes, after: Nodes, r: nat)
    requires TreeOk(nodes) && r in nodes && r != ROOT && nodes[r].view != []
    requires forall j {:trigger RemovedAt(nodes, after, r, j)} :: RemovedAt(nodes, after, r, j)
    ensures TreeOk(after)
  {
    assert UpOk(nodes, r) && RemovedAt(nodes, after, r, ROOT);
    forall i ensures UpOk(after, i) {
      assert RemovedAt(nodes, after, r, i) && UpOk(nodes, i);
      if i in after && i != ROOT {
        var p := nodes[i].parent;
        assert RemovedAt(nodes, after, r, p);
        if Within(nodes, r, p) { WithinDown(nodes, r, p, Last(nodes[i].view)); assert false; }
      }
    }
    forall i, n ensures DownOk(after, i, n) {
      assert RemovedAt(nodes, after, r, i) && DownOk(nodes, i, n);
      if i in after && n in after[i].children {
        var j := nodes[i].children[n];
        assert RemovedAt(nodes, after, r, j);
        assert UpOk(nodes, j);
        if Within(nodes, r, j) && j != r { WithinUp(nodes, r, j); }
      }
    }
  }

  // ------------------------------------------------------------------ moving a subtree

  /** A path at or below `from` re-based to `to`. */
  function Shift(v: Path, from: Path, to: Path): Path {
    if from <= v then to + v[|from|..] else v
  }

  /** Node `j` when `i` moves under `np` as `name`, its subtree with it. */
  function Relinked(nodes: Nodes, i: nat, np: nat, name: Name, db: Path, j: nat): Node
    requires i in nodes && np in nodes && j in nodes && nodes[i].view != []
  {
    var n, v := nodes[j], nodes[i].view;
    var without := if j == nodes[i].parent then n.children - {Last(v)} else n.children;
    Node(if v <= n.view then db + n.view[|v|..] else n.db,
         Shift(n.view, v, nodes[np].view + [name]),
         n.kind,
         if j == i then np else n.parent,
         if j == np then without[name := i] else without)
  }

  ghost predicate RelinkedAt(nodes: Nodes, after: Nodes, i: nat, np: nat, name: Name, db: Path, j: nat)
    requires i in nodes && np in nodes && nodes[i].view != []
  {
    (j in after <==> j in nodes) && (j in after ==> after[j] == Relinked(nodes, i, np, name, db, j))
  }

  /** The move keeps the table a tree: the new parent is not inside the moved subtree and has no child of that
      name. */
  lemma MoveKeepsUp(nodes: Nodes, after: Nodes, i: nat, np: nat, name: Name, db: Path, j: nat)
    requires TreeOk(nodes) && i in nodes && i != ROOT && np in nodes && nodes[i].view != []
    requires !Within(nodes, i, np) && name !in nodes[np].children
    requires forall k {:trigger RelinkedAt(nodes, after, i, np, name, db, k)} ::
      RelinkedAt(nodes, after, i, np, name, db, k)
    ensures UpOk(after, j)
  {
    assert UpOk(nodes, i) && UpOk(nodes, j) && RelinkedAt(nodes, after, i, np, name, db, j);
    assert RelinkedAt(nodes, after, i, np, name, db, np);
    if j in nodes && j != ROOT {
      var p, v, to := nodes[j].parent, nodes[i].view, nodes[np].view + [name];
      assert RelinkedAt(nodes, after, i, np, name, db, p);
      if j == i {
        assert v[|v|..] == [];
      } else if Within(nodes, i, j) {
        WithinUp(nodes, i, j);
        var w := nodes[j].view;
        assert v <= ParentOf(w) && |v| < |w|;
        assert (to + w[|v|..])[..|to + w[|v|..]| - 1] == to + ParentOf(w)[|v|..];
      } else {
        if Within(nodes, i, p) { WithinDown(nodes, i, p, Last(nodes[j].view)); }
      }
    }
  }

  lemma MoveKeepsDown(nodes: Nodes, after: Nodes, i: nat, np: nat, name: Name, db: Path, j: nat, n: Name)
    requires TreeOk(nodes) && i in nodes && i != ROOT && np in nodes && nodes[np].kind == Dir && nodes[i].view != []
    requires !Within(nodes, i, np) && name !in nodes[np].children
    requires forall k {:trigger RelinkedAt(nodes, after, i, np, name, db, k)} ::
      RelinkedAt(nodes, after, i, np, name, db, k)
    ensures DownOk(after, j, n)
  {
    assert UpOk(nodes, i) && DownOk(nodes, j, n) && RelinkedAt(nodes, after, i, np, name, db, j);
    assert RelinkedAt(nodes, after, i, np, name, db, i);
    if j in nodes && n in nodes[j].children {
      var c, v, to := nodes[j].children[n], nodes[i].view, nodes[np].view + [name];
      assert UpOk(nodes, c) && RelinkedAt(nodes, after, i, np, name, db, c);
      if Within(nodes, i, j) {
        WithinDown(nodes, i, j, n);
        var w := nodes[j].view;
        assert (w + [n])[|v|..] == w[|v|..] + [n];
      } else if c != i && Within(nodes, i, c) {
        WithinUp(nodes, i, c);
      }
    }
    if j == np { assert nodes[i].view[|nodes[i].view|..] == []; }
  }
}
