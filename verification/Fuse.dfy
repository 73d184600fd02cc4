/** The mount's requests: each changes the rows first, and the inode table only when that succeeded. */
module Fuse {
  import opened Tables
  import opened Trees
  import opened Policy
  import opened Connections
  import opened Views
  import opened Rows
  import opened Paths
  import opened Store
  import opened Moves
  import opened Inodes
  import opened Mounts
  import Worlds

  datatype Errno = ENOENT | ENOTDIR | EISDIR | ENOTEMPTY | EEXIST | EINVAL | EACCES
  datatype Reply<+T> = Done(value: T) | Fail(errno: Errno)

  /** A name a directory entry can have. */
  predicate GoodName(n: Name) {
    n != "" && '/' !in n && n != "." && n != ".."
  }

  // ------------------------------------------------------------------ agreement with the rows

  ghost predicate AgreeAt(nodes: Nodes, fs: Files, i: nat) {
    i in nodes && i != ROOT ==> nodes[i].db in fs && fs[nodes[i].db].kind == nodes[i].kind
  }

  ghost predicate ApartAt(nodes: Nodes, i: nat, j: nat) {
    i in nodes && j in nodes && i != ROOT && j != ROOT && i != j ==> nodes[i].db != nodes[j].db
  }

  /** Every node but the root has a row of its own, of its own kind. */
  ghost predicate Agree(nodes: Nodes, fs: Files) {
    && (forall i {:trigger AgreeAt(nodes, fs, i)} :: AgreeAt(nodes, fs, i))
    && (forall i, j {:trigger ApartAt(nodes, i, j)} :: ApartAt(nodes, i, j))
  }

  lemma RemoveAgrees(nodes: Nodes, after: Nodes, fs: Files, r: nat)
    requires Agree(nodes, fs) && r in nodes && r != ROOT && nodes[r].view != []
    requires forall j {:trigger RemovedAt(nodes, after, r, j)} :: RemovedAt(nodes, after, r, j)
    ensures Agree(after, fs - {nodes[r].db})
  {
    var f := fs - {nodes[r].db};
    forall i ensures AgreeAt(after, f, i) {
      assert AgreeAt(nodes, fs, i) && RemovedAt(nodes, after, r, i) && ApartAt(nodes, i, r);
    }
    forall i, j ensures ApartAt(after, i, j) {
      assert ApartAt(nodes, i, j) && RemovedAt(nodes, after, r, i) && RemovedAt(nodes, after, r, j);
    }
  }

  // ------------------------------------------------------------------ relinking a moved subtree

  /** Node `j` of the table part way through a move: paths are re-based for the nodes `done` only. */
  ghost predicate PartAt(nodes: Nodes, now: Nodes, i: nat, np: nat, name: Name, db: Path, done: set<nat>, j: nat)
    requires i in nodes && np in nodes && nodes[i].view != []
  {
    && (j in now <==> j in nodes)
    && (j in now ==>
      var n := Relinked(nodes, i, np, name, db, j);
      now[j] == if j in done then n else n.(db := nodes[j].db, view := nodes[j].view))
  }

  /** Hang `i` under `np` as `name` and re-base the paths of the nodes `moved`. */
  method Relink(nodes: Nodes, i: nat, np: nat, name: Name, db: Path, moved: seq<nat>) returns (now: Nodes)
    requires TreeOk(nodes) && i in nodes && i != ROOT && np in nodes && nodes[np].kind == Dir && nodes[i].view != []
    requires !Within(nodes, i, np) && name !in nodes[np].children && Distinct(moved)
    requires forall j {:trigger j in moved} :: j in moved <==> Within(nodes, i, j)
    ensures TreeOk(now)
    ensures forall j {:trigger RelinkedAt(nodes, now, i, np, name, db, j)} :: RelinkedAt(nodes, now, i, np, name, db, j)
  {
    assert UpOk(nodes, i);
    var v, to := nodes[i].view, nodes[np].view + [name];
    NotItsParent(nodes, i, i);
    now := nodes;
    now := now[nodes[i].parent := Unlinked(now[nodes[i].parent], Last(v))];
    now := now[np := now[np].(children := now[np].children[name := i])];
    now := now[i := now[i].(parent := np)];
    ghost var done: set<nat> := {};
    forall j ensures PartAt(nodes, now, i, np, name, db, done, j) {}
    var k := 0;
    while k < |moved|
      invariant 0 <= k <= |moved|
      invariant done == set j | j in moved[..k]
      invariant forall j {:trigger PartAt(nodes, now, i, np, name, db, done, j)} ::
        PartAt(nodes, now, i, np, name, db, done, j)
    {
      var m := moved[k];
      assert m in moved && PartAt(nodes, now, i, np, name, db, done, m);
      assert moved[..k + 1] == moved[..k] + [m];
      assert m !in moved[..k];
      ghost var was, before, more := now, done, done + {m};
      var rel := now[m].view[|v|..];
      now := now[m := now[m].(db := db + rel, view := to + rel)];
      forall j ensures PartAt(nodes, now, i, np, name, db, more, j) {
        assert PartAt(nodes, was, i, np, name, db, before, j);
      }
      done := more;
      k := k + 1;
    }
    assert moved[..|moved|] == moved;
    forall j ensures RelinkedAt(nodes, now, i, np, name, db, j) {
      assert PartAt(nodes, now, i, np, name, db, done, j);
      assert j in done <==> Within(nodes, i, j);
    }
    forall j ensures UpOk(now, j) { MoveKeepsUp(nodes, now, i, np, name, db, j); }
    forall j, n ensures DownOk(now, j, n) { MoveKeepsDown(nodes, now, i, np, name, db, j, n); }
    assert UpOk(nodes, ROOT) && RelinkedAt(nodes, now, i, np, name, db, ROOT);
  }

  // ------------------------------------------------------------------ the rows of a rename

  /** What a rename did to the rows: the tables once a replaced entry was dropped, and the moves as one map,
      with its domain and its inverse. */
  datatype Moving = Moving(fs: Files, chunks: Chunks, dirty: set<Path>, mv: map<Path, Path>, gone: set<Path>,
                           back: map<Path, Path>)

  /** The rows a rename leaves before anything moves: a replaced entry is gone. */
  ghost predicate WithoutReplaced(fs: Files, a: Chunks, dirty: set<Path>, replaced: Option<Path>, fs1: Files,
                                  a1: Chunks, dirty1: set<Path>) {
    match replaced
    case None => fs1 == fs && a1 == a && dirty1 == dirty
    case Some(d) => fs1 == fs - {d} && dirty1 == dirty - {d} && Dropped(a, a1, Live, {d})
  }

  function Remaining(fs: Files, replaced: Option<Path>): Files {
    if replaced.Some? then fs - {replaced.value} else fs
  }

  ghost predicate AllAccepted(rules: seq<Rule>, fs: Files, moves: seq<Move>) {
    forall j {:trigger Accepted(rules, fs, moves, j)} :: Accepted(rules, fs, moves, j)
  }

  /** Drop a replaced entry, then move the rows in turn. */
  method MoveRows(c: Connection, replaced: Option<Path>, moves: seq<Move>) returns (ok: bool, ghost w: Moving)
    requires Sound(c) && DistinctMoves(c.fs, moves)
    requires replaced.Some? ==>
      forall j {:trigger moves[j]} :: 0 <= j < |moves| ==> moves[j].from != replaced.value
    modifies c`fs, c`chunks, c`blobs, c`dirty, c`logical
    ensures Sound(c) && c.logical <= old(c.logical)
    ensures !ok ==> AnyBlocked(c.rules, Remaining(old(c.fs), replaced), moves)
    ensures ok ==>
      && WithoutReplaced(old(c.fs), old(c.chunks), old(c.dirty), replaced, w.fs, w.chunks, w.dirty)
      && AllMoved(w.fs, w.chunks, w.dirty, c.fs, c.chunks, c.dirty, w.gone, w.back)
      && w.mv == MoveMap(moves, |moves|) && Inverse(w.mv, w.gone, w.back) && Free(w.fs, w.gone, w.back)
      && AllAccepted(old(c.rules), w.fs, moves)
  {
    if replaced.Some? { DropPath(c, replaced.value); }
    ghost var fs, chunks, dirty := c.fs, c.chunks, c.dirty;
    ghost var gone, back;
    ok, gone, back := MoveAll(c, moves);
    w := Moving(fs, chunks, dirty, MoveMap(moves, |moves|), gone, back);
  }

  /** All rows move in one savepoint, a replaced entry dropped first; any refusal rolls everything back. */
  method RenameRows(c: Connection, replaced: Option<Path>, moves: seq<Move>) returns (ok: bool, ghost w: Moving)
    requires Sound(c) && DistinctMoves(c.fs, moves)
    requires replaced.Some? ==>
      forall j {:trigger moves[j]} :: 0 <= j < |moves| ==> moves[j].from != replaced.value
    modifies c`fs, c`chunks, c`blobs, c`dirty, c`logical
    ensures Sound(c) && c.logical <= old(c.logical)
    ensures !ok ==> SameTables(c)
    ensures !ok ==>
      || (replaced.Some? && Protected(c.rules, replaced.value))
      || AnyBlocked(c.rules, Remaining(c.fs, replaced), moves)
    ensures ok ==>
      && WithoutReplaced(old(c.fs), old(c.chunks), old(c.dirty), replaced, w.fs, w.chunks, w.dirty)
      && AllMoved(w.fs, w.chunks, w.dirty, c.fs, c.chunks, c.dirty, w.gone, w.back)
      && w.mv == MoveMap(moves, |moves|) && Inverse(w.mv, w.gone, w.back) && Free(w.fs, w.gone, w.back)
      && AllAccepted(old(c.rules), w.fs, moves) && (replaced.Some? ==> !Protected(old(c.rules), replaced.value))
  {
    w := Moving(c.fs, c.chunks, c.dirty, map[], {}, map[]);
    ok := replaced.None? || !Protected(c.rules, replaced.value);
    if !ok { return; }
    var savedFs, savedChunks, savedBlobs, savedDirty, savedLogical := c.fs, c.chunks, c.blobs, c.dirty, c.logical;
    ok, w := MoveRows(c, replaced, moves);
    if !ok {
      c.dirty := savedDirty;
      PutBack(c, savedFs, savedChunks, savedBlobs, savedLogical);
    }
  }

  lemma {:induction false} MoveMapAt(fs: Files, moves: seq<Move>, k: nat, j: nat)
    requires DistinctMoves(fs, moves) && j < k <= |moves|
    ensures moves[j].from in MoveMap(moves, k) && MoveMap(moves, k)[moves[j].from] == moves[j].to
    decreases k
  {
    if j < k - 1 { MoveMapAt(fs, moves, k - 1, j); }
  }

  ghost predicate MoveOf(nodes: Nodes, v: Path, db: Path, i: nat, m: Move) {
    i in nodes && v <= nodes[i].view && m == Move(nodes[i].db, db + nodes[i].view[|v|..])
  }

  /** The moves of a subtree: each node's row goes where its place in the tree says. */
  ghost predicate MovesOf(nodes: Nodes, v: Path, db: Path, moved: seq<nat>, moves: seq<Move>) {
    |moves| == |moved| && forall k {:trigger moves[k]} :: 0 <= k < |moves| ==> MoveOf(nodes, v, db, moved[k], moves[k])
  }

  /** The rows have moved (`fs` to `fs'`) and the table has been relinked (`nodes` to `now`). */
  ghost predicate BothMoved(nodes: Nodes, now: Nodes, i: nat, np: nat, name: Name, db: Path, moved: seq<nat>,
                            moves: seq<Move>,
                            fs: Files, fs': Files, gone: set<Path>, back: map<Path, Path>) {
    && Agree(nodes, fs) && ROOT in nodes && nodes[ROOT].view == [] && i in nodes && i != ROOT && np in nodes
    && nodes[i].view != []
    && DistinctMoves(fs, moves) && MovesOf(nodes, nodes[i].view, db, moved, moves)
    && (forall j {:trigger j in moved} :: j in moved <==> Within(nodes, i, j))
    && (forall j {:trigger RelinkedAt(nodes, now, i, np, name, db, j)} :: RelinkedAt(nodes, now, i, np, name, db, j))
    && (forall q {:trigger RowMovedAt(fs, fs', gone, back, q)} :: RowMovedAt(fs, fs', gone, back, q))
    && Inverse(MoveMap(moves, |moves|), gone, back) && Free(fs, gone, back)
  }

  lemma NodeMoved(nodes: Nodes, now: Nodes, i: nat, np: nat, name: Name, db: Path, moved: seq<nat>, moves: seq<Move>,
                  fs: Files, fs': Files, gone: set<Path>, back: map<Path, Path>, j: nat)
    requires BothMoved(nodes, now, i, np, name, db, moved, moves, fs, fs', gone, back) && j in nodes && j != ROOT
    ensures j in now && now[j].kind == nodes[j].kind
    ensures now[j].db in fs' && fs'[now[j].db].kind == now[j].kind
    ensures Within(nodes, i, j) ==> now[j].db in back && back[now[j].db] == nodes[j].db
    ensures !Within(nodes, i, j) ==> now[j].db == nodes[j].db && now[j].db !in back
  {
    var mv, p := MoveMap(moves, |moves|), nodes[j].db;
    assert RelinkedAt(nodes, now, i, np, name, db, j) && AgreeAt(nodes, fs, j);
    assert InverseAt(mv, gone, back, p);
    assert RowMovedAt(fs, fs', gone, back, p) && RowMovedAt(fs, fs', gone, back, now[j].db);
    if Within(nodes, i, j) {
      assert j in moved;
      var k :| 0 <= k < |moved| && moved[k] == j;
      assert moves[k] == Move(p, db + nodes[j].view[|nodes[i].view|..]);
      MoveMapAt(fs, moves, |moves|, k);
    } else {
      forall k | 0 <= k < |moves| ensures moves[k].from != p {
        assert moved[k] in moved && ApartAt(nodes, moved[k], j) && MoveOf(nodes, nodes[i].view, db, moved[k], moves[k]);
      }
      if p in mv { var k := MoveMapOnly(moves, |moves|, p); }
    }
  }

  /** After the rows moved and the table was relinked, they agree again. */
  lemma MoveAgrees(nodes: Nodes, now: Nodes, i: nat, np: nat, name: Name, db: Path, moved: seq<nat>, moves: seq<Move>,
                   fs: Files, fs': Files, gone: set<Path>, back: map<Path, Path>)
    requires BothMoved(nodes, now, i, np, name, db, moved, moves, fs, fs', gone, back)
    ensures Agree(now, fs')
  {
    forall j | j in nodes && j != ROOT
      ensures j in now && now[j].kind == nodes[j].kind
      ensures now[j].db in fs' && fs'[now[j].db].kind == now[j].kind
      ensures Within(nodes, i, j) ==> now[j].db in back && back[now[j].db] == nodes[j].db
      ensures !Within(nodes, i, j) ==> now[j].db == nodes[j].db && now[j].db !in back
    {
      NodeMoved(nodes, now, i, np, name, db, moved, moves, fs, fs', gone, back, j);
    }
    forall j ensures AgreeAt(now, fs', j) { assert RelinkedAt(nodes, now, i, np, name, db, j); }
    forall x, y ensures ApartAt(now, x, y) {
      assert RelinkedAt(nodes, now, i, np, name, db, x) && RelinkedAt(nodes, now, i, np, name, db, y);
      assert ApartAt(nodes, x, y);
    }
  }

  /** Where each moved row goes: by the node's place in the tree, so an entry reached through a linked
      ancestor moves with the directory it is seen in. */
  method PlanMoves(nodes: Nodes, v: Path, db: Path, moved: seq<nat>, ghost fs: Files) returns (moves: seq<Move>)
    requires Agree(nodes, fs) && Distinct(moved)
    requires forall k {:trigger moved[k]} ::
        0 <= k < |moved| ==> moved[k] in nodes && moved[k] != ROOT && v <= nodes[moved[k]].view
    ensures MovesOf(nodes, v, db, moved, moves) && DistinctMoves(fs, moves)
  {
    moves := seq(|moved|, k requires 0 <= k < |moved| => Move(nodes[moved[k]].db, db + nodes[moved[k]].view[|v|..]));
    forall j {:trigger moves[j]} | 0 <= j < |moves| ensures moves[j].from in fs { assert AgreeAt(nodes, fs, moved[j]); }
    forall i, j {:trigger moves[i], moves[j]} | 0 <= i < j < |moves| ensures moves[i].from != moves[j].from {
      assert ApartAt(nodes, moved[i], moved[j]);
    }
  }

  // ------------------------------------------------------------------ the table of a rename

  /** What a rename may start from: `i` is not the root, `np` a directory outside its subtree, and an entry
      already there under the new name is another node and not a directory. */
  ghost predicate CanMove(nodes: Nodes, i: nat, np: nat, name: Name) {
    && TreeOk(nodes) && i in nodes && i != ROOT && nodes[i].view != [] && np in nodes && nodes[np].kind == Dir
    && !Within(nodes, i, np)
    && (name in nodes[np].children ==>
      var r := nodes[np].children[name];
      r != i && r in nodes && nodes[r].kind != Dir)
  }

  /** The rename target is the entry itself. */
  ghost predicate SameEntry(nodes: Nodes, parent: nat, name: Name, np: nat, newName: Name) {
    && parent in nodes && name in nodes[parent].children && np in nodes && newName in nodes[np].children
    && nodes[np].children[newName] == nodes[parent].children[name]
  }

  /** The row of the entry a rename replaces. */
  function ReplacedRow(nodes: Nodes, np: nat, name: Name): Option<Path> {
    if np in nodes && name in nodes[np].children && nodes[np].children[name] in nodes
    then Some(nodes[nodes[np].children[name]].db) else None
  }

  /** The replaced entry is a leaf outside the moved subtree. */
  lemma ReplacedIsLeaf(nodes: Nodes, i: nat, np: nat, name: Name)
    requires CanMove(nodes, i, np, name) && name in nodes[np].children
    ensures var r := nodes[np].children[name];
      && r in nodes && r != ROOT && nodes[r].view == nodes[np].view + [name] && nodes[r].parent == np
      && !Within(nodes, i, r) && forall j :: Within(nodes, r, j) ==> j == r
  {
    assert DownOk(nodes, np, name);
    var r := nodes[np].children[name];
    if Within(nodes, i, r) { WithinUp(nodes, i, r); }
    forall n ensures n !in nodes[r].children { assert DownOk(nodes, r, n); }
    forall j | Within(nodes, r, j) ensures j == r { Childless(nodes, r, j); }
  }

  /** A node without children is alone in its subtree. */
  lemma {:induction false} Childless(nodes: Nodes, r: nat, j: nat)
    requires TreeOk(nodes) && Within(nodes, r, j) && nodes[r].children == map[]
    ensures j == r
    decreases |nodes[j].view|
  {
    if j != r {
      assert UpOk(nodes, j);
      WithinUp(nodes, r, j);
      Childless(nodes, r, nodes[j].parent);
    }
  }

  /** The table without a replaced entry. */
  ghost predicate TableWithout(nodes: Nodes, mid: Nodes, np: nat, name: Name) {
    && np in nodes
    && if name !in nodes[np].children then mid == nodes else
      var r := nodes[np].children[name];
      && r in nodes && nodes[r].view != []
      && forall j {:trigger RemovedAt(nodes, mid, r, j)} :: RemovedAt(nodes, mid, r, j)
  }

  method DropReplaced(nodes: Nodes, ghost i: nat, np: nat, name: Name, ghost moved: seq<nat>) returns (mid: Nodes)
    requires CanMove(nodes, i, np, name)
    requires forall j {:trigger j in moved} :: j in moved <==> Within(nodes, i, j)
    ensures TreeOk(mid) && TableWithout(nodes, mid, np, name)
    ensures forall j {:trigger j in mid} :: j in mid ==> j in nodes
    ensures i in mid && np in mid && mid[np].kind == Dir && mid[i] == nodes[i] && mid[np].view == nodes[np].view
    ensures name !in mid[np].children
    ensures forall j {:trigger j in moved} :: j in moved <==> Within(mid, i, j)
    ensures forall j {:trigger j in moved} :: j in moved ==> j in nodes && j in mid && mid[j] == nodes[j]
  {
    mid := nodes;
    NotItsParent(nodes, i, i);
    if name in nodes[np].children {
      var r := nodes[np].children[name];
      ReplacedIsLeaf(nodes, i, np, name);
      mid := RemoveNode(nodes, r);
      assert RemovedAt(nodes, mid, r, i) && RemovedAt(nodes, mid, r, np);
      assert i != np;
      forall j {:trigger j in moved}
        ensures (j in moved <==> Within(mid, i, j)) && (j in moved ==> mid[j] == nodes[j]) {
        assert RemovedAt(nodes, mid, r, j);
        assert j in moved ==> j != np;
      }
      forall j {:trigger j in mid} | j in mid ensures j in nodes { assert RemovedAt(nodes, mid, r, j); }
    }
  }

  /** The moves planned on the old table are those of the table without the replaced entry. */
  lemma SameMoves(nodes: Nodes, mid: Nodes, v: Path, db: Path, moved: seq<nat>, moves: seq<Move>)
    requires MovesOf(nodes, v, db, moved, moves)
    requires forall j {:trigger j in moved} :: j in moved ==> j in nodes && j in mid && mid[j] == nodes[j]
    ensures MovesOf(mid, v, db, moved, moves)
  {
    forall k {:trigger moves[k]} | 0 <= k < |moves| ensures MoveOf(mid, v, db, moved[k], moves[k]) {
      assert moved[k] in moved && MoveOf(nodes, v, db, moved[k], moves[k]);
    }
  }

  lemma WithoutAgrees(nodes: Nodes, mid: Nodes, fs: Files, i: nat, np: nat, name: Name)
    requires CanMove(nodes, i, np, name) && TableWithout(nodes, mid, np, name) && Agree(nodes, fs)
    ensures Agree(mid, Remaining(fs, ReplacedRow(nodes, np, name)))
  {
    if name in nodes[np].children {
      ReplacedIsLeaf(nodes, i, np, name);
      RemoveAgrees(nodes, mid, fs, nodes[np].children[name]);
    }
  }

  /** The replaced entry's row is none of the moved ones. */
  lemma ReplacedStays(nodes: Nodes, fs: Files, i: nat, np: nat, name: Name, db: Path, moved: seq<nat>, moves: seq<Move>)
    requires CanMove(nodes, i, np, name) && Agree(nodes, fs) && MovesOf(nodes, nodes[i].view, db, moved, moves)
    requires forall j {:trigger j in moved} :: j in moved <==> Within(nodes, i, j)
    ensures name in nodes[np].children ==>
      forall k {:trigger moves[k]} :: 0 <= k < |moves| ==> moves[k].from != nodes[nodes[np].children[name]].db
  {
    if name in nodes[np].children {
      ReplacedIsLeaf(nodes, i, np, name);
      forall k {:trigger moves[k]} | 0 <= k < |moves| ensures moves[k].from != nodes[nodes[np].children[name]].db {
        assert moved[k] in moved && ApartAt(nodes, moved[k], nodes[np].children[name]);
      }
    }
  }

  lemma MovesStay(fs: Files, fs1: Files, replaced: Option<Path>, moves: seq<Move>)
    requires DistinctMoves(fs, moves) && fs1 == (if replaced.Some? then fs - {replaced.value} else fs)
    requires replaced.Some? ==> forall j {:trigger moves[j]} :: 0 <= j < |moves| ==> moves[j].from != replaced.value
    ensures DistinctMoves(fs1, moves)
  {
  }

  ghost predicate WentTo(nodes: Nodes, i: nat, db: Path, mv: map<Path, Path>, j: nat) {
    Within(nodes, i, j) ==> nodes[j].db in mv && mv[nodes[j].db] == db + nodes[j].view[|nodes[i].view|..]
  }

  /** `mv` moves exactly the rows of the subtree of `i`, each to the path its place in the tree gives under
      `db`. */
  ghost predicate SubtreeMoves(nodes: Nodes, i: nat, db: Path, mv: map<Path, Path>) {
    && (forall j {:trigger WentTo(nodes, i, db, mv, j)} :: WentTo(nodes, i, db, mv, j))
    && forall p {:trigger p in mv} :: p in mv ==> exists j :: Within(nodes, i, j) && nodes[j].db == p
  }

  lemma WhereRowsWent(nodes: Nodes, fs: Files, i: nat, db: Path, moved: seq<nat>, moves: seq<Move>)
    requires i in nodes && DistinctMoves(fs, moves) && MovesOf(nodes, nodes[i].view, db, moved, moves)
    requires forall j {:trigger j in moved} :: j in moved <==> Within(nodes, i, j)
    ensures SubtreeMoves(nodes, i, db, MoveMap(moves, |moves|))
  {
    var mv := MoveMap(moves, |moves|);
    forall j ensures WentTo(nodes, i, db, mv, j) {
      if Within(nodes, i, j) {
        assert j in moved;
        var k :| 0 <= k < |moved| && moved[k] == j;
        assert MoveOf(nodes, nodes[i].view, db, moved[k], moves[k]);
        MoveMapAt(fs, moves, |moves|, k);
      }
    }
    forall p {:trigger p in mv} | p in mv ensures exists j :: Within(nodes, i, j) && nodes[j].db == p {
      var k := MoveMapOnly(moves, |moves|, p);
      assert moved[k] in moved && MoveOf(nodes, nodes[i].view, db, moved[k], moves[k]);
      assert Within(nodes, i, moved[k]);
    }
  }

  /** Some entry of the moved subtree would land on a row other than the one the rename replaces. The row may be
      one of the subtree that itself moves: the moves are done in turn, and it may not have moved yet. */
  ghost predicate Clash(nodes: Nodes, fs: Files, i: nat, np: nat, name: Name) {
    && i in nodes && np in nodes
    && exists j :: Within(nodes, i, j) && ClashAt(nodes, fs, i, np, name, j)
  }

  ghost predicate ClashAt(nodes: Nodes, fs: Files, i: nat, np: nat, name: Name, j: nat)
    requires np in nodes && Within(nodes, i, j)
  {
    var q := nodes[np].db + [name] + nodes[j].view[|nodes[i].view|..];
    q in fs && ReplacedRow(nodes, np, name) != Some(q)
  }

  /** The rules stop the move of entry `j` of the subtree: its row is protected where it is, or refused where it
      goes, with the bytes it has where it is still counted. */
  ghost predicate RefusedEntry(rules: seq<Rule>, nodes: Nodes, fs: Files, i: nat, np: nat, name: Name, j: nat)
    requires np in nodes && Within(nodes, i, j)
  {
    var left := Remaining(fs, ReplacedRow(nodes, np, name));
    && nodes[j].db in left
    && (Protected(rules, nodes[j].db)
        || Refused(rules, map[], Total(left), nodes[np].db + [name] + nodes[j].view[|nodes[i].view|..],
        left[nodes[j].db]))
  }

  /** Why a rename that passed its checks is refused: the entry it replaces is protected, some entry of the subtree
      is refused, or a path is taken. */
  ghost predicate RenameRefused(rules: seq<Rule>, nodes: Nodes, fs: Files, i: nat, np: nat, name: Name) {
    && i in nodes && np in nodes
    && (|| (ReplacedRow(nodes, np, name).Some? && Protected(rules, ReplacedRow(nodes, np, name).value))
        || (exists j :: Within(nodes, i, j) && RefusedEntry(rules, nodes, fs, i, np, name, j))
        || Clash(nodes, fs, i, np, name))
  }

  /** No rule stands against entry `j` of the subtree: neither its row nor the new path is protected, and the row fits
      there while it still counts where it is. */
  ghost predicate AllowedEntry(rules: seq<Rule>, nodes: Nodes, fs: Files, i: nat, np: nat, name: Name, j: nat) {
    np in nodes && Within(nodes, i, j) ==>
      var left := Remaining(fs, ReplacedRow(nodes, np, name));
      var to := nodes[np].db + [name] + nodes[j].view[|nodes[i].view|..];
      && !Protected(rules, nodes[j].db) && !Protected(rules, to)
      && (nodes[j].db in left && nodes[j].db != to ==> !Refused(rules, map[], Total(left), to, left[nodes[j].db]))
  }

  /** A rename that was done broke no rule. */
  ghost predicate RenameAllowed(rules: seq<Rule>, nodes: Nodes, fs: Files, i: nat, np: nat, name: Name) {
    && (ReplacedRow(nodes, np, name).Some? ==> !Protected(rules, ReplacedRow(nodes, np, name).value))
    && forall j {:trigger AllowedEntry(rules, nodes, fs, i, np, name, j)} ::
      AllowedEntry(rules, nodes, fs, i, np, name, j)
  }

  lemma WhyAllowed(rules: seq<Rule>, nodes: Nodes, fs: Files, i: nat, np: nat, name: Name, moved: seq<nat>,
                   moves: seq<Move>)
    requires CanMove(nodes, i, np, name) && MovesOf(nodes, nodes[i].view, nodes[np].db + [name], moved, moves)
    requires forall j {:trigger j in moved} :: j in moved <==> Within(nodes, i, j)
    requires AllAccepted(rules, Remaining(fs, ReplacedRow(nodes, np, name)), moves)
    requires ReplacedRow(nodes, np, name).Some? ==> !Protected(rules, ReplacedRow(nodes, np, name).value)
    ensures RenameAllowed(rules, nodes, fs, i, np, name)
  {
    var left := Remaining(fs, ReplacedRow(nodes, np, name));
    forall j ensures AllowedEntry(rules, nodes, fs, i, np, name, j) {
      if Within(nodes, i, j) {
        assert j in moved;
        var k :| 0 <= k < |moved| && moved[k] == j;
        assert MoveOf(nodes, nodes[i].view, nodes[np].db + [name], moved[k], moves[k]);
        assert Accepted(rules, left, moves, k);
      }
    }
  }

  /** When a rename may fail: there is no such entry, no such directory, the new name is none, or it is not a rename
      to itself and either not possible or refused. */
  ghost predicate MayFail(rules: seq<Rule>, nodes: Nodes, fs: Files, parent: nat, name: Name, np: nat, newName: Name) {
    || parent !in nodes || name !in nodes[parent].children || np !in nodes || nodes[np].kind != Dir
    || !GoodName(newName)
    || (!SameEntry(nodes, parent, name, np, newName)
        && var i := nodes[parent].children[name];
        CanMove(nodes, i, np, newName) ==> RenameRefused(rules, nodes, fs, i, np, newName))
  }

  /** Without rules only a taken path is left. */
  lemma RulelessClash(nodes: Nodes, fs: Files, i: nat, np: nat, name: Name)
    requires RenameRefused([], nodes, fs, i, np, name)
    ensures Clash(nodes, fs, i, np, name)
  {
  }

  /** Nothing else stops the moves of a subtree: their targets differ from each other. */
  lemma WhyBlocked(rules: seq<Rule>, nodes: Nodes, fs: Files, i: nat, np: nat, name: Name, moved: seq<nat>,
                   moves: seq<Move>)
    requires CanMove(nodes, i, np, name) && Distinct(moved)
    requires MovesOf(nodes, nodes[i].view, nodes[np].db + [name], moved, moves)
    requires forall j {:trigger j in moved} :: j in moved <==> Within(nodes, i, j)
    requires AnyBlocked(rules, Remaining(fs, ReplacedRow(nodes, np, name)), moves)
    ensures RenameRefused(rules, nodes, fs, i, np, name)
  {
    var j :| Blocked(rules, Remaining(fs, ReplacedRow(nodes, np, name)), moves, j);
    var v, db := nodes[i].view, nodes[np].db + [name];
    assert MoveOf(nodes, v, db, moved[j], moves[j]) && moved[j] in moved;
    forall k | 0 <= k < j ensures moves[k].to != moves[j].to {
      assert MoveOf(nodes, v, db, moved[k], moves[k]) && moved[k] in moved;
      var x, y := nodes[moved[k]].view, nodes[moved[j]].view;
      if db + x[|v|..] == db + y[|v|..] {
        assert x[|v|..] == (db + x[|v|..])[|db|..] == y[|v|..];
        assert x == v + x[|v|..] && y == v + y[|v|..];
        UniqueViews(nodes, moved[k], moved[j]);
      }
    }
    assert Within(nodes, i, moved[j]);
    assert RefusedEntry(rules, nodes, fs, i, np, name, moved[j]) || ClashAt(nodes, fs, i, np, name, moved[j]);
  }

  // ------------------------------------------------------------------ new entries

  /** What a create, mknod, mkdir or symlink request asks for. */
  datatype Making = MakeFile(mode: nat, exclusive: bool) | MakeDir(mode: nat) | MakeLink(target: string)

  function MadeKind(e: Making): Kind {
    match e case MakeFile(_, _) => File case MakeDir(_) => Dir case MakeLink(_) => Symlink
  }

  function MadeRow(e: Making, now: int, ns: int): Row {
    match e
    case MakeFile(mode, _) => FileRow(mode, now, ns, [])
    case MakeDir(mode) => NodeRow(Dir, mode, now, ns, None)
    case MakeLink(target) => NodeRow(Symlink, 511, now, ns, Some(target))
  }

  /** The row a request asks for, field by field: an empty file, a directory, or a link with its target. */
  ghost predicate MadeAs(e: Making, row: Row, now: int) {
    && row.mtime == now && row.size == 0
    && match e
      case MakeFile(mode, _) =>
        row.kind == File && row.mode == mode && row.link.None? && row.hash == Some(Sha256([]))
      case MakeDir(mode) => row.kind == Dir && row.mode == mode && row.link.None? && row.hash.None?
      case MakeLink(target) => row.kind == Symlink && row.mode == 511 && row.link == Some(target) && row.hash.None?
  }

  /** The rows after a request for `p`: the missing parents `made` are there, and `row` if it succeeded. */
  ghost predicate RowsMade(fs: Files, fs': Files, p: Path, made: set<Path>, row: Option<Row>, now: int) {
    var f := WithDirs(fs, made, NodeRow(Dir, 493, now, 0, None));
    made <= Above(p) && fs' == if row.Some? then f[p := row.value] else f
  }

  /** The rules refuse the row of the new entry, or that of a missing parent. */
  ghost predicate EntryRefused(c: Connection, p: Path, e: Making, now: int)
    reads c
  {
    || Refused(c.rules, c.fs, c.logical, p, MadeRow(e, now, KeptNs(c.fs, p)))
    || (exists q ::
      q in Above(p) && q !in c.fs && Refused(c.rules, c.fs, c.logical, q, NodeRow(Dir, 493, now, 0, None)))
  }

  /** Write the row of a new entry. Missing parent rows come first, and a refused entry leaves them. */
  method PutMade(c: Connection, p: Path, e: Making, now: int) returns (ok: bool, ghost made: set<Path>)
    requires Sound(c)
    modifies c`fs, c`chunks, c`blobs, c`logical
    ensures Sound(c) && (c.rules == [] ==> ok)
    ensures ok ==>
      && RowsMade(old(c.fs), c.fs, p, Above(p), Some(MadeRow(e, now, KeptNs(old(c.fs), p))), now)
      && Filled(old(c.chunks), c.chunks, p, [], 0)
    ensures !ok ==> RowsMade(old(c.fs), c.fs, p, made, None, now) && c.chunks == old(c.chunks)
    ensures !ok ==> EntryRefused(c, p, e, now)
    ensures ok ==> !Protected(old(c.rules), p)
    ensures ok ==> forall q {:trigger q in old(c.fs)} ::
      [] < q < p && q !in old(c.fs) ==> !Protected(old(c.rules), q)
  {
    ok, made := EnsureParentDirs(c, p, NodeRow(Dir, 493, now, 0, None));
    if !ok { return; }
    NotAbove(p);
    forall q {:trigger q in old(c.fs)} | [] < q < p ensures q in Above(p) { AboveIs(p, q); }
    match e
    case MakeFile(mode, _) => ok := PutFile(c, p, mode, now, []);
    case MakeDir(mode) => ok := PutNode(c, p, Dir, mode, now, None);
    case MakeLink(target) => ok := PutNode(c, p, Symlink, 511, now, Some(target));
  }

  /** No node stands for the row `p`. */
  ghost predicate Unused(nodes: Nodes, p: Path) {
    forall i {:trigger nodes[i]} :: i in nodes && i != ROOT ==> nodes[i].db != p
  }

  lemma ParentsAgree(nodes: Nodes, fs: Files, fs': Files, p: Path, made: set<Path>, now: int)
    requires Agree(nodes, fs) && RowsMade(fs, fs', p, made, None, now)
    ensures Agree(nodes, fs')
  {
    forall i ensures AgreeAt(nodes, fs', i) { assert AgreeAt(nodes, fs, i); }
  }

  /** A new entry keeps the table in agreement with the rows exactly when no other node stands for its row. */
  lemma AddAgreesIff(nodes: Nodes, fs: Files, fs': Files, parent: nat, name: Name, ino: nat, p: Path, e: Making,
                     made: set<Path>, row: Row, now: int)
    requires Agree(nodes, fs) && parent in nodes && ino !in nodes && ino != ROOT && row.kind == MadeKind(e)
    requires RowsMade(fs, fs', p, made, Some(row), now)
    ensures Agree(Added(nodes, parent, name, ino, p, MadeKind(e)), fs') <==> Unused(nodes, p)
  {
    var after := Added(nodes, parent, name, ino, p, MadeKind(e));
    if Unused(nodes, p) {
      forall i ensures AgreeAt(after, fs', i) { assert AgreeAt(nodes, fs, i); }
      forall i, j ensures ApartAt(after, i, j) { assert ApartAt(nodes, i, j); }
    } else {
      var i :| i in nodes && i != ROOT && nodes[i].db == p;
      assert !ApartAt(after, i, ino);
    }
  }

  class Mount {
    const conn: Connection
    var nodes: Nodes
    var next: nat

    /** The table is a tree, agrees with the rows, and the next inode number is unused. */
    ghost predicate Valid()
      reads this, conn
    {
      TreeOk(nodes) && Agree(nodes, conn.fs) && Sound(conn) && forall i {:trigger i in nodes} :: i in nodes ==> i < next
    }

    /** A mount over a table that was built from a well-formed database. */
    constructor (c: Connection, table: Nodes, unused: nat)
      requires TreeOk(table) && Agree(table, c.fs) && Sound(c)
      requires forall i {:trigger i in table} :: i in table ==> i < unused
      ensures Valid() && conn == c && nodes == table && next == unused
    {
      conn, nodes, next := c, table, unused;
    }

    /** Database and view paths for a new entry. */
    method NewEntryPaths(parent: nat, name: Name) returns (r: Reply<(Path, Path)>)
      requires TreeOk(nodes)
      ensures r.Done? <==>
        && parent in nodes && nodes[parent].kind == Dir && name !in nodes[parent].children
        && name != "" && name != "." && name != ".." && forall k :: 0 <= k < |name| ==> name[k] != '/'
      ensures r == Fail(EEXIST) ==> parent in nodes && name in nodes[parent].children
      ensures r.Done? ==> r.value == (nodes[parent].db + [name], nodes[parent].view + [name])
      ensures r.Done? ==> forall j {:trigger nodes[j]} :: j in nodes ==> nodes[j].view != r.value.1
    {
      if parent !in nodes { return Fail(ENOENT); }
      if nodes[parent].kind != Dir { return Fail(ENOTDIR); }
      if !GoodName(name) { return Fail(EINVAL); }
      if name in nodes[parent].children { return Fail(EEXIST); }
      forall j {:trigger nodes[j]} | j in nodes ensures nodes[j].view != nodes[parent].view + [name] {
        assert UpOk(nodes, j);
        if nodes[j].view == nodes[parent].view + [name] {
          assert ParentOf(nodes[j].view) == nodes[parent].view;
          UniqueViews(nodes, nodes[j].parent, parent);
        }
      }
      r := Done((nodes[parent].db + [name], nodes[parent].view + [name]));
    }

    /** Register a created entry, whose row is already written. */
    method AddNode(parent: nat, name: Name, kind: Kind) returns (ino: nat)
      requires TreeOk(nodes) && (forall i {:trigger i in nodes} :: i in nodes ==> i < next) && next > ROOT
      requires parent in nodes && nodes[parent].kind == Dir && name !in nodes[parent].children
      modifies this
      ensures TreeOk(nodes) && ino == old(next) && next == ino + 1
      ensures (forall i {:trigger i in nodes} :: i in nodes ==> i < next)
      ensures nodes == Added(old(nodes), parent, name, ino, old(nodes)[parent].db + [name], kind)
    {
      ino := next;
      next := next + 1;
      AddKeeps(nodes, parent, name, ino, nodes[parent].db + [name], kind);
      nodes := Added(nodes, parent, name, ino, nodes[parent].db + [name], kind);
    }

    /** The entry of an answer to a request for a name that is taken: create without `O_EXCL` opens a file, mkdir
        takes a directory. */
    method Existing(parent: nat, name: Name, e: Making) returns (r: Reply<nat>)
      requires TreeOk(nodes) && parent in nodes && name in nodes[parent].children
      ensures
        var i := nodes[parent].children[name];
        r == if i in nodes && nodes[i].kind == MadeKind(e) && (e.MakeDir? || (e.MakeFile? && !e.exclusive))
          then Done(i) else Fail(EEXIST)
    {
      var i := nodes[parent].children[name];
      assert DownOk(nodes, parent, name);
      var takes := match e case MakeFile(_, exclusive) => !exclusive case MakeDir(_) => true case MakeLink(_) => false;
      r := if takes && nodes[i].kind == MadeKind(e) then Done(i) else Fail(EEXIST);
    }

    /** Create a file, directory or link. A failed request leaves the table as it was and at most adds missing
        parent rows; a successful one adds one row and one node. The table then agrees with the rows exactly when
        no other node stands for the new row. */
    method MakeEntry(parent: nat, name: Name, e: Making, now: int) returns (r: Reply<nat>, ghost made: set<Path>)
      requires Valid()
      modifies this, conn`fs, conn`chunks, conn`blobs, conn`logical
      ensures
        var isNew := parent in old(nodes) && old(nodes)[parent].kind == Dir && name !in old(nodes)[parent].children;
        && (r.Done? && r.value !in old(nodes) ==> isNew && GoodName(name))
        && (isNew && GoodName(name) && conn.rules == [] ==> r.Done?)
        && (isNew && GoodName(name) && r.Fail? ==> EntryRefused(conn, old(nodes)[parent].db + [name], e, now))
      ensures r.Done? && r.value !in old(nodes) && parent in old(nodes) ==>
        var p := old(nodes)[parent].db + [name];
        && nodes == Added(old(nodes), parent, name, r.value, p, MadeKind(e))
        && RowsMade(old(conn.fs), conn.fs, p, Above(p), Some(MadeRow(e, now, KeptNs(old(conn.fs), p))), now)
        && p in conn.fs && MadeAs(e, conn.fs[p], now)
        && conn.fs[p].mtimeNs == (if p in old(conn.fs) then old(conn.fs)[p].mtimeNs else 0)
        && Filled(old(conn.chunks), conn.chunks, p, [], 0)
        && (Valid() <==> Unused(old(nodes), p))
        && !Protected(old(conn.rules), p)
        && forall q {:trigger q in old(conn.fs)} ::
          [] < q < p && q !in old(conn.fs) ==> !Protected(old(conn.rules), q)
      ensures r.Fail? || r.value in old(nodes) ==>
        && Valid() && nodes == old(nodes) && conn.chunks == old(conn.chunks)
        && (conn.fs == old(conn.fs) || (parent in nodes &&
          RowsMade(old(conn.fs), conn.fs, nodes[parent].db + [name], made, None, now)))
    {
      made := {};
      var paths := NewEntryPaths(parent, name);
      if paths.Fail? {
        if paths.errno == EEXIST { r := Existing(parent, name, e); } else { r := Fail(paths.errno); }
        return;
      }
      ghost var before, fs := nodes, conn.fs;
      var p, ok := paths.value.0, false;
      ok, made := PutMade(conn, p, e, now);
      if !ok {
        ParentsAgree(nodes, fs, conn.fs, p, made, now);
        return Fail(EACCES), made;
      }
      var ino := AddNode(parent, name, MadeKind(e));
      AddAgreesIff(before, fs, conn.fs, parent, name, ino, p, e, Above(p), MadeRow(e, now, KeptNs(fs, p)), now);
      r := Done(ino);
    }

    /** Remove a file or link, or an empty directory. A refused delete leaves table and rows as they were. */
    method Unlink(parent: nat, name: Name, directory: bool) returns (r: Reply<()>)
      requires Valid()
      modifies this`nodes, conn`fs, conn`chunks, conn`blobs, conn`dirty, conn`logical
      ensures Valid()
      ensures r.Fail? ==> nodes == old(nodes) && SameTables(conn)
      ensures r.Done? <==>
        && parent in old(nodes) && name in old(nodes)[parent].children
        && var i := old(nodes)[parent].children[name];
          && i in old(nodes) && directory == (old(nodes)[i].kind == Dir) && old(nodes)[i].children == map[]
          && !Protected(conn.rules, old(nodes)[i].db)
      ensures r.Done? ==>
        && parent in old(nodes) && name in old(nodes)[parent].children
        && var i := old(nodes)[parent].children[name];
          && i in old(nodes) && old(nodes)[i].view != []
          && conn.fs == old(conn.fs) - {old(nodes)[i].db} && conn.dirty == old(conn.dirty) - {old(nodes)[i].db}
          && Dropped(old(conn.chunks), conn.chunks, Live, {old(nodes)[i].db})
          && (forall j {:trigger RemovedAt(old(nodes), nodes, i, j)} :: RemovedAt(old(nodes), nodes, i, j))
          && forall j {:trigger j in nodes} :: j in nodes <==> j in old(nodes) && j != i
    {
      if parent !in nodes || name !in nodes[parent].children { return Fail(ENOENT); }
      assert DownOk(nodes, parent, name);
      var i := nodes[parent].children[name];
      if !directory && nodes[i].kind == Dir { return Fail(EISDIR); }
      if directory && nodes[i].kind != Dir { return Fail(ENOTDIR); }
      forall n | nodes[i].kind != Dir ensures n !in nodes[i].children { assert DownOk(nodes, i, n); }
      if directory && nodes[i].children != map[] { return Fail(ENOTEMPTY); }
      if Protected(conn.rules, nodes[i].db) { return Fail(EACCES); }
      ghost var before, fs := nodes, conn.fs;
      DropPath(conn, nodes[i].db);
      nodes := RemoveNode(nodes, i);
      RemoveAgrees(before, nodes, fs, i);
      forall j {:trigger j in nodes} ensures j in nodes <==> j in before && j != i {
        assert RemovedAt(before, nodes, i, j);
        if Within(before, i, j) { Childless(before, i, j); }
      }
      r := Done(());
    }

    /** Rename an entry, with its subtree. A refused rename changes neither table nor rows; a successful one
        hangs the subtree under its new parent and moves all its rows at once, a replaced file dropped. */
    method Rename(parent: nat, name: Name, np: nat, newName: Name)
      returns (r: Reply<()>, ghost mid: Nodes, ghost w: Moving)
      requires Valid()
      modifies this`nodes, conn`fs, conn`chunks, conn`blobs, conn`dirty, conn`logical
      ensures Valid() && conn.logical <= old(conn.logical)
      ensures r.Fail? ==> nodes == old(nodes) && SameTables(conn)
      ensures r.Fail? ==> MayFail(old(conn.rules), nodes, conn.fs, parent, name, np, newName)
      ensures r.Done? ==>
        && parent in old(nodes) && name in old(nodes)[parent].children && np in old(nodes)
        && var i := old(nodes)[parent].children[name];
          if SameEntry(old(nodes), parent, name, np, newName) then nodes == old(nodes) && SameTables(conn)
          else
            && RenameAllowed(old(conn.rules), old(nodes), old(conn.fs), i, np, newName)
            && CanMove(old(nodes), i, np, newName) && RenamedTo(old(nodes), nodes, mid, i, np, newName)
            && Renames(old(View(conn)), View(conn), ReplacedRow(old(nodes), np, newName), w.mv)
            && RowsRenamed(old(nodes), old(conn.fs), old(conn.chunks), old(conn.dirty),
              conn.fs, conn.chunks, conn.dirty, i, np, newName, w)
    {
      mid, w := nodes, Moving(conn.fs, conn.chunks, conn.dirty, map[], {}, map[]);
      if parent !in nodes || name !in nodes[parent].children { r := Fail(ENOENT); return; }
      assert DownOk(nodes, parent, name);
      var i := nodes[parent].children[name];
      if np !in nodes { r := Fail(ENOENT); return; }
      if nodes[np].kind != Dir { r := Fail(ENOTDIR); return; }
      if !GoodName(newName) { r := Fail(EINVAL); return; }
      if newName in nodes[np].children {
        assert DownOk(nodes, np, newName);
        if nodes[np].children[newName] == i { r := Done(()); return; }
        if nodes[nodes[np].children[newName]].kind == Dir { r := Fail(EEXIST); return; }
      }
      var moved := Subtree(nodes, i);
      if np in moved { r := Fail(EINVAL); return; }
      ghost var before, fs, chunks, dirty := nodes, conn.fs, conn.chunks, conn.dirty;
      var ok;
      ok, mid, w := MoveEntry(i, np, newName, moved);
      if ok {
        RenameRefines(before, fs, chunks, dirty, conn.fs, conn.chunks, conn.dirty, conn.snaps, conn.undos, i, np,
                      newName, w);
      }
      r := if ok then Done(()) else Fail(EACCES);
    }

    /** The rows and the table of a rename that passed its checks. */
    method MoveEntry(i: nat, np: nat, name: Name, moved: seq<nat>)
      returns (ok: bool, ghost mid: Nodes, ghost w: Moving)
      requires Valid() && CanMove(nodes, i, np, name) && Distinct(moved)
      requires forall j {:trigger j in moved} :: j in moved <==> Within(nodes, i, j)
      modifies this`nodes, conn`fs, conn`chunks, conn`blobs, conn`dirty, conn`logical
      ensures Valid() && conn.logical <= old(conn.logical)
      ensures !ok ==> nodes == old(nodes) && SameTables(conn)
      ensures !ok ==> RenameRefused(old(conn.rules), nodes, conn.fs, i, np, name)
      ensures ok ==> RenamedTo(old(nodes), nodes, mid, i, np, name)
      ensures ok ==> RenameAllowed(old(conn.rules), old(nodes), old(conn.fs), i, np, name)
      ensures ok ==>
        RowsRenamed(old(nodes), old(conn.fs), old(conn.chunks), old(conn.dirty), conn.fs, conn.chunks, conn.dirty,
          i, np, name, w)
    {
      var db := nodes[np].db + [name];
      var replaced := ReplacedRow(nodes, np, name);
      mid, w := nodes, Moving(conn.fs, conn.chunks, conn.dirty, map[], {}, map[]);
      forall k {:trigger moved[k]}
        | 0 <= k < |moved|
        ensures moved[k] in nodes && moved[k] != ROOT && nodes[i].view <= nodes[moved[k]].view {
        assert moved[k] in moved;
      }
      var moves := PlanMoves(nodes, nodes[i].view, db, moved, conn.fs);
      ReplacedStays(nodes, conn.fs, i, np, name, db, moved, moves);
      ghost var before, fs := nodes, conn.fs;
      ok, w := RenameRows(conn, replaced, moves);
      if !ok {
        if replaced.None? || !Protected(conn.rules, replaced.value) {
          WhyBlocked(conn.rules, nodes, conn.fs, i, np, name, moved, moves);
        }
        return;
      }
      WhyAllowed(conn.rules, before, fs, i, np, name, moved, moves);
      var cleared := DropReplaced(nodes, i, np, name, moved);
      mid := cleared;
      nodes := Relink(cleared, i, np, name, db, moved);
      WithoutAgrees(before, mid, fs, i, np, name);
      SameMoves(before, mid, before[i].view, db, moved, moves);
      MovesStay(fs, w.fs, replaced, moves);
      WhereRowsWent(before, fs, i, db, moved, moves);
      MoveAgrees(mid, nodes, i, np, name, db, moved, moves, w.fs, conn.fs, w.gone, w.back);
      forall j {:trigger j in nodes} | j in nodes ensures j in before {
        assert RelinkedAt(mid, nodes, i, np, name, db, j);
      }
    }
  }

  /** The table after a rename: the replaced entry gone, the subtree of `i` hung under `np` as `name`. */
  ghost predicate RenamedTo(nodes: Nodes, now: Nodes, mid: Nodes, i: nat, np: nat, name: Name) {
    && TableWithout(nodes, mid, np, name) && i in mid && np in mid && mid[i].view != []
    && forall j {:trigger RelinkedAt(mid, now, i, np, name, nodes[np].db + [name], j)} ::
      RelinkedAt(mid, now, i, np, name, nodes[np].db + [name], j)
  }

  /** The rows after a rename: the replaced row dropped, then exactly the rows of the subtree moved at once,
      each to the path its place in the tree gives, none of them left behind. `gone` are the old paths, `back`
      sends each new path to its old one. */
  ghost predicate RowsRenamed(nodes: Nodes, fs: Files, a: Chunks, dirty: set<Path>, fs': Files, b: Chunks,
                              dirty': set<Path>,
                              i: nat, np: nat, name: Name, w: Moving) {
    && CanMove(nodes, i, np, name)
    && WithoutReplaced(fs, a, dirty, ReplacedRow(nodes, np, name), w.fs, w.chunks, w.dirty)
    && AllMoved(w.fs, w.chunks, w.dirty, fs', b, dirty', w.gone, w.back)
    && SubtreeMoves(nodes, i, nodes[np].db + [name], w.mv) && Inverse(w.mv, w.gone, w.back)
    && Free(w.fs, w.gone, w.back)
  }

  /** Dropping a live path is the remove step of the abstract machine. */
  lemma DropRefines(fs: Files, a: Chunks, b: Chunks, dirty: set<Path>, snaps: Snapshots, undos: Undos, d: Path)
    requires Dropped(a, b, Live, {d})
    ensures ViewOf(fs - {d}, b, dirty - {d}, snaps, undos) ==
      Worlds.Step(ViewOf(fs, a, dirty, snaps, undos), Worlds.Remove(d))
  {
    DropKept(a, b, Live, {d});
    LiveChange(fs, a, dirty, fs - {d}, b, dirty - {d}, snaps, undos);
    DropTree(fs, a, b, {d});
  }

  ghost function WithoutRow(v: Worlds.World, replaced: Option<Path>): Worlds.World {
    if replaced.Some? then Worlds.Step(v, Worlds.Remove(replaced.value)) else v
  }

  /** From `v` to `v'` in steps of the abstract machine: the removal of a replaced entry, if any, and one
      re-keying. */
  ghost predicate Renames(v: Worlds.World, v': Worlds.World, replaced: Option<Path>, mv: map<Path, Path>) {
    var w := WithoutRow(v, replaced);
    Worlds.Enabled(w, Worlds.Rename(mv)) && v' == Worlds.Step(w, Worlds.Rename(mv))
  }

  /** What a rename does to the rows are those steps. */
  lemma RenameRefines(nodes: Nodes, fs: Files, a: Chunks, dirty: set<Path>, fs': Files, b: Chunks, dirty': set<Path>,
                      snaps: Snapshots, undos: Undos,
                      i: nat, np: nat, name: Name, w: Moving)
    requires RowsRenamed(nodes, fs, a, dirty, fs', b, dirty', i, np, name, w)
    requires forall p {:trigger p in dirty} :: p in dirty ==> p in fs
    ensures Renames(ViewOf(fs, a, dirty, snaps, undos), ViewOf(fs', b, dirty', snaps, undos),
      ReplacedRow(nodes, np, name), w.mv)
  {
    var replaced := ReplacedRow(nodes, np, name);
    if replaced.Some? { DropRefines(fs, a, w.chunks, dirty, snaps, undos, replaced.value); }
    MovesRefine(w.fs, w.chunks, w.dirty, fs', b, dirty', snaps, undos, w.gone, w.back, w.mv);
  }
}
