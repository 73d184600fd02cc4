/** Undo records: the rows a step changed, as they were before it. Each operation states the tables it
    leaves, and a lemma beside it says which step of the abstract machine that is. */
module UndoRecords {
  import opened Tables
  import opened Trees
  import opened Connections
  import opened Views
  import opened Rows

  /** The id an `INTEGER PRIMARY KEY` table gives its next row: one more than the largest in use. */
  method NextId(ids: set<nat>) returns (n: nat)
    ensures n > 0 && (forall i {:trigger i in ids} :: i in ids ==> i < n) && (n == 1 || n - 1 in ids)
  {
    var m, todo := 0, ids;
    while todo != {}
      invariant todo <= ids
      invariant forall i {:trigger i in ids} :: i in ids && i !in todo ==> i <= m
      invariant m == 0 || m in ids
      decreases |todo|
    {
      var i :| i in todo;
      if i > m { m := i; }
      todo := todo - {i};
    }
    n := m + 1;
  }

  lemma BeginRooted(fs: Files, chunks: Chunks, snaps: Snapshots, undos: Undos, u: nat)
    requires Rooted(fs, chunks, snaps, undos) && u !in undos
    ensures Rooted(fs, chunks, snaps, undos[u := map[]])
  {
    var un := undos[u := map[]];
    forall s ensures RootedAt(fs, chunks, snaps, un, s) {
      assert RootedAt(fs, chunks, snaps, undos, s);
    }
  }

  /** Open a new, empty undo record. */
  method UndoBegin(c: Connection) returns (u: nat)
    requires Sound(c)
    modifies c`undos
    ensures Sound(c)
    ensures u > 0 && (forall i {:trigger i in old(c.undos)} :: i in old(c.undos) ==> i < u)
    ensures (u == 1 || u - 1 in old(c.undos))
    ensures c.undos == old(c.undos)[u := map[]]
  {
    u := NextId(c.undos.Keys);
    ghost var undos := c.undos;
    c.undos := c.undos[u := map[]];
    BeginRooted(c.fs, c.chunks, c.snaps, undos, u);
  }

  // ------------------------------------------------------------------ capture

  function Captured(fs: Files, p: Path): Option<Row> {
    if p in fs then Some(fs[p]) else None
  }

  function WithCapture(undos: Undos, u: nat, p: Path, r: Option<Row>): Undos
    requires u in undos
  {
    undos[u := undos[u][p := r]]
  }

  lemma NotCapturedVacant(fs: Files, chunks: Chunks, snaps: Snapshots, undos: Undos, u: nat, p: Path)
    requires Rooted(fs, chunks, snaps, undos) && u in undos && p !in undos[u]
    ensures Vacant(chunks, Undo(u), {p})
  {
    forall s ensures DroppedAt(chunks, chunks, Undo(u), {p}, s) {
      assert RootedAt(fs, chunks, snaps, undos, s);
    }
  }

  lemma NothingToCopy(fs: Files, chunks: Chunks, snaps: Snapshots, undos: Undos, u: nat, p: Path)
    requires Rooted(fs, chunks, snaps, undos) && p !in fs && Vacant(chunks, Undo(u), {p})
    ensures Copied(chunks, chunks, Live, Undo(u), {p})
  {
    forall s ensures CopiedAt(chunks, chunks, Live, Undo(u), {p}, s) {
      assert DroppedAt(chunks, chunks, Undo(u), {p}, s);
      assert RootedAt(fs, chunks, snaps, undos, Slot(Live, s.path, s.idx));
    }
  }

  lemma CaptureRooted(fs: Files, a: Chunks, b: Chunks, snaps: Snapshots, undos: Undos, u: nat, p: Path)
    requires Rooted(fs, a, snaps, undos) && u in undos && p !in undos[u] && Copied(a, b, Live, Undo(u), {p})
    ensures Rooted(fs, b, snaps, WithCapture(undos, u, p, Captured(fs, p)))
  {
    var un := WithCapture(undos, u, p, Captured(fs, p));
    forall s ensures RootedAt(fs, b, snaps, un, s) {
      assert RootedAt(fs, a, snaps, undos, s);
      assert CopiedAt(a, b, Live, Undo(u), {p}, s);
      assert RootedAt(fs, a, snaps, undos, Slot(Live, s.path, s.idx));
    }
  }

  /** Record `p` as it is now. Only the first capture of a path in a record counts. */
  method UndoCapture(c: Connection, u: nat, p: Path)
    requires Sound(c) && u in c.undos
    modifies c`undos, c`chunks, c`blobs
    ensures Sound(c)
    ensures p in old(c.undos)[u] ==> c.undos == old(c.undos) && c.chunks == old(c.chunks)
    ensures p !in old(c.undos)[u] ==>
      && c.undos == WithCapture(old(c.undos), u, p, Captured(c.fs, p))
      && Copied(old(c.chunks), c.chunks, Live, Undo(u), {p})
  {
    if p in c.undos[u] { return; }
    ghost var chunks, undos := c.chunks, c.undos;
    NotCapturedVacant(c.fs, chunks, c.snaps, undos, u, p);
    if p in c.fs {
      CopySlots(c, Live, Undo(u), {p});
    } else {
      NothingToCopy(c.fs, chunks, c.snaps, undos, u, p);
    }
    c.undos := WithCapture(c.undos, u, p, Captured(c.fs, p));
    CaptureRooted(c.fs, chunks, c.chunks, c.snaps, undos, u, p);
  }

  // ------------------------------------------------------------------ apply

  function Existed(rows: map<Path, Option<Row>>): Files {
    map p | p in rows && rows[p].Some? :: rows[p].value
  }

  lemma CopyNothing(chunks: Chunks, from: Owner, to: Owner)
    ensures Copied(chunks, chunks, from, to, {})
  {
    forall s ensures CopiedAt(chunks, chunks, from, to, {}, s) {}
  }

  ghost predicate AttachedAt(a: Files, b: Files, back: Files, ps: set<Path>, p: Path) {
    if p in ps && p in back then p in b && b[p] == back[p]
    else (p in b <==> p in a) && (p in b ==> b[p] == a[p])
  }

  /** `b` is `a` with the rows `back` at the paths `ps`. */
  ghost predicate Attached(a: Files, b: Files, back: Files, ps: set<Path>) {
    forall p {:trigger AttachedAt(a, b, back, ps, p)} :: AttachedAt(a, b, back, ps, p)
  }

  lemma AttachedMore(a: Files, b: Files, back: Files, ps: set<Path>, p: Path)
    requires Attached(a, b, back, ps) && p in back
    ensures Attached(a, b[p := back[p]], back, ps + {p})
  {
    var c := b[p := back[p]];
    forall q ensures AttachedAt(a, c, back, ps + {p}, q) { assert AttachedAt(a, b, back, ps, q); }
  }

  lemma AttachedNone(a: Files, back: Files)
    ensures Attached(a, a, back, {})
  {
    forall q ensures AttachedAt(a, a, back, {}, q) {}
  }

  lemma AttachedAll(a: Files, b: Files, back: Files)
    requires Attached(a, b, back, back.Keys)
    ensures b == a + back
  {
    forall q ensures q in b <==> q in a + back { assert AttachedAt(a, b, back, back.Keys, q); }
    forall q | q in b ensures b[q] == (a + back)[q] { assert AttachedAt(a, b, back, back.Keys, q); }
  }

  /** Insert the rows `back` with their chunk rows taken from `from`. */
  method AttachPaths(c: Connection, from: Owner, back: Files)
    requires Sound(c) && from != Live && back.Keys !! c.fs.Keys
    modifies c`fs, c`chunks, c`blobs, c`logical
    ensures Sound(c)
    ensures c.fs == old(c.fs) + back
    ensures Copied(old(c.chunks), c.chunks, from, Live, back.Keys)
  {
    var todo, done: set<Path> := back.Keys, {};
    CopyNothing(c.chunks, from, Live);
    AttachedNone(c.fs, back);
    while todo != {}
      invariant done + todo == back.Keys && done !! todo && Sound(c)
      invariant Attached(old(c.fs), c.fs, back, done)
      invariant Copied(old(c.chunks), c.chunks, from, Live, done)
      decreases |todo|
    {
      var p :| p in todo;
      assert AttachedAt(old(c.fs), c.fs, back, done, p);
      ghost var chunks := c.chunks;
      AttachedMore(old(c.fs), c.fs, back, done, p);
      AttachPath(c, from, p, back[p]);
      CopyMore(old(c.chunks), chunks, c.chunks, from, Live, done, {p});
      todo, done := todo - {p}, done + {p};
    }
    AttachedAll(old(c.fs), c.fs, back);
  }

  /** Put every path of the record back as it was before its step: first every path is removed, then the
      ones that existed are inserted with their chunk rows. Runs with the write policy bypassed. */
  method UndoApply(c: Connection, u: nat) returns (ghost less: Chunks)
    requires Sound(c) && u in c.undos
    modifies c`fs, c`chunks, c`blobs, c`dirty, c`logical
    ensures Sound(c)
    ensures c.fs == old(c.fs) - c.undos[u].Keys + Existed(c.undos[u])
    ensures c.dirty == old(c.dirty) - c.undos[u].Keys
    ensures Dropped(old(c.chunks), less, Live, c.undos[u].Keys)
    ensures Copied(less, c.chunks, Undo(u), Live, Existed(c.undos[u]).Keys)
  {
    var rows := c.undos[u];
    DropPaths(c, rows.Keys);
    less := c.chunks;
    AttachPaths(c, Undo(u), Existed(rows));
  }

  // ------------------------------------------------------------------ delete

  lemma DeleteRooted(fs: Files, a: Chunks, b: Chunks, snaps: Snapshots, undos: Undos, u: nat)
    requires Rooted(fs, a, snaps, undos) && u in undos && Dropped(a, b, Undo(u), undos[u].Keys)
    ensures Rooted(fs, b, snaps, undos - {u})
  {
    var un := undos - {u};
    forall s ensures RootedAt(fs, b, snaps, un, s) {
      assert RootedAt(fs, a, snaps, undos, s);
      assert DroppedAt(a, b, Undo(u), undos[u].Keys, s);
    }
  }

  /** Drop a record; by cascade its rows and chunk rows, which release the blobs only it needed. */
  method UndoDelete(c: Connection, u: nat)
    requires Sound(c) && u in c.undos
    modifies c`undos, c`chunks, c`blobs
    ensures Sound(c) && c.undos == old(c.undos) - {u}
    ensures Dropped(old(c.chunks), c.chunks, Undo(u), old(c.undos)[u].Keys)
  {
    ghost var chunks, undos := c.chunks, c.undos;
    DropSlots(c, Undo(u), c.undos[u].Keys);
    c.undos := c.undos - {u};
    DeleteRooted(c.fs, chunks, c.chunks, c.snaps, undos, u);
  }
}
