/** The row statements the operations are made of: dropping live paths, attaching paths from a copy, and
    copying chunk rows between tables. Each states the tables it leaves exactly. */
module Rows {
  import opened Tables
  import opened Trees
  import opened Policy
  import opened Connections
  import opened Views

  // ------------------------------------------------------------------ chunk rows of some paths

  /** `DELETE` the chunk rows of `o` at the paths `ps`. */
  method DropSlots(c: Connection, o: Owner, ps: set<Path>)
    modifies c`chunks, c`blobs
    ensures BlobsKept(c)
    ensures Dropped(old(c.chunks), c.chunks, o, ps)
  {
    var gone := set s | s in c.chunks && s.owner == o && s.path in ps;
    c.DeleteSlots(gone);
    forall s ensures DroppedAt(old(c.chunks), c.chunks, o, ps, s) {}
  }

  /** No chunk row of `o` at the paths `ps`. */
  ghost predicate Vacant(chunks: Chunks, o: Owner, ps: set<Path>) {
    Dropped(chunks, chunks, o, ps)
  }

  ghost predicate RowCopyAt(chunks: Chunks, rows: Chunks, from: Owner, to: Owner, ps: set<Path>, s: Slot) {
    && (s in rows <==> s.owner == to && s.path in ps && Slot(from, s.path, s.idx) in chunks)
    && (s in rows ==> rows[s] == chunks[Slot(from, s.path, s.idx)])
  }

  /** The chunk rows of `from` at the paths `ps`, as rows of `to`. */
  method SelectSlots(chunks: Chunks, from: Owner, to: Owner, ps: set<Path>) returns (rows: Chunks)
    ensures forall s {:trigger RowCopyAt(chunks, rows, from, to, ps, s)} :: RowCopyAt(chunks, rows, from, to, ps, s)
  {
    rows := map s | s in chunks && s.owner == from && s.path in ps :: s.(owner := to) := chunks[s];
    forall s ensures RowCopyAt(chunks, rows, from, to, ps, s) {
      if s.owner == to && s.path in ps && Slot(from, s.path, s.idx) in chunks {
        assert Slot(from, s.path, s.idx).(owner := to) == s;
      }
    }
  }

  /** `INSERT … SELECT` from one chunk table into another. */
  method CopySlots(c: Connection, from: Owner, to: Owner, ps: set<Path>)
    requires Core(c.chunks, c.blobs, c.dicts) && Vacant(c.chunks, to, ps)
    modifies c`chunks, c`blobs
    ensures Core(c.chunks, c.blobs, c.dicts) && Idle(c.chunks, c.blobs) <= old(Idle(c.chunks, c.blobs))
    ensures Copied(old(c.chunks), c.chunks, from, to, ps)
  {
    ghost var chunks := c.chunks;
    var rows := SelectSlots(c.chunks, from, to, ps);
    forall s {:trigger rows[s]} | s in rows ensures s !in c.chunks && rows[s] in c.blobs {
      assert RowCopyAt(chunks, rows, from, to, ps, s);
      assert DroppedAt(chunks, chunks, to, ps, s);
      assert HasBlob(chunks, c.blobs, Slot(from, s.path, s.idx));
    }
    c.InsertSlots(rows);
    forall s ensures CopiedAt(chunks, c.chunks, from, to, ps, s) {
      assert RowCopyAt(chunks, rows, from, to, ps, s);
      assert DroppedAt(chunks, chunks, to, ps, s);
    }
  }

  // ------------------------------------------------------------------ dropping live paths

  lemma NoRowVacant(fs: Files, chunks: Chunks, snaps: Snapshots, undos: Undos, ps: set<Path>)
    requires Rooted(fs, chunks, snaps, undos) && (forall p {:trigger p in ps} :: p in ps ==> p !in fs)
    ensures Vacant(chunks, Live, ps)
  {
    forall s ensures DroppedAt(chunks, chunks, Live, ps, s) {
      assert RootedAt(fs, chunks, snaps, undos, s);
    }
  }

  lemma DropRooted(fs: Files, a: Chunks, b: Chunks, snaps: Snapshots, undos: Undos, p: Path)
    requires Rooted(fs, a, snaps, undos) && Dropped(a, b, Live, {p})
    ensures Rooted(fs - {p}, b, snaps, undos)
  {
    var f := fs - {p};
    forall s ensures RootedAt(f, b, snaps, undos, s) {
      assert RootedAt(fs, a, snaps, undos, s);
      assert DroppedAt(a, b, Live, {p}, s);
    }
  }

  /** `DELETE FROM vm_fs WHERE path=p`: the row, by cascade its pending mark, by trigger its chunk rows. */
  method DropPath(c: Connection, p: Path)
    requires Shaped(c)
    modifies c`fs, c`chunks, c`blobs, c`dirty, c`logical
    ensures Shaped(c) && BlobsKept(c) && c.logical <= old(c.logical)
    ensures c.fs == old(c.fs) - {p} && c.dirty == old(c.dirty) - {p}
    ensures Dropped(old(c.chunks), c.chunks, Live, {p})
  {
    if p in c.fs {
      ghost var fs, chunks := c.fs, c.chunks;
      c.logical := c.logical - WeightAt(c.fs, p);
      c.fs := c.fs - {p};
      c.dirty := c.dirty - {p};
      DropSlots(c, Live, {p});
      TotalWithout(fs, p);
      DropRooted(fs, chunks, c.chunks, c.snaps, c.undos, p);
    } else {
      NoRowVacant(c.fs, c.chunks, c.snaps, c.undos, {p});
      assert c.fs - {p} == c.fs && c.dirty - {p} == c.dirty;
    }
  }

  lemma DropNothing(chunks: Chunks, o: Owner)
    ensures Dropped(chunks, chunks, o, {})
  {
    forall s ensures DroppedAt(chunks, chunks, o, {}, s) {}
  }

  method DropPaths(c: Connection, ps: set<Path>)
    requires Shaped(c)
    modifies c`fs, c`chunks, c`blobs, c`dirty, c`logical
    ensures Shaped(c) && BlobsKept(c)
    ensures c.fs == old(c.fs) - ps && c.dirty == old(c.dirty) - ps
    ensures Dropped(old(c.chunks), c.chunks, Live, ps)
  {
    var todo, done: set<Path> := ps, {};
    DropNothing(c.chunks, Live);
    assert c.fs - {} == c.fs;
    while todo != {}
      invariant done + todo == ps && Shaped(c) && BlobsKept(c)
      invariant c.fs == old(c.fs) - done && c.dirty == old(c.dirty) - done
      invariant Dropped(old(c.chunks), c.chunks, Live, done)
      decreases |todo|
    {
      var p :| p in todo;
      ghost var chunks := c.chunks;
      DropPath(c, p);
      DropMore(old(c.chunks), chunks, c.chunks, Live, done, {p});
      todo, done := todo - {p}, done + {p};
    }
  }

  /** Dropping paths is dropping them from the live tree. */
  lemma DropTree(fs: Files, a: Chunks, b: Chunks, ps: set<Path>)
    requires Dropped(a, b, Live, ps)
    ensures TreeOf(fs - ps, b, Live) == TreeOf(fs, a, Live) - ps
  {
    var s, t := TreeOf(fs - ps, b, Live), TreeOf(fs, a, Live) - ps;
    forall p ensures At(s, p) == At(t, p) { ListAfterDrop(a, b, Live, ps, Live, p); }
    SameTree(s, t);
  }

  // ------------------------------------------------------------------ attaching paths from a copy

  lemma AttachRooted(fs: Files, a: Chunks, b: Chunks, snaps: Snapshots, undos: Undos, from: Owner, p: Path, row: Row)
    requires Rooted(fs, a, snaps, undos) && Copied(a, b, from, Live, {p})
    ensures Rooted(fs[p := row], b, snaps, undos)
  {
    var f := fs[p := row];
    forall s ensures RootedAt(f, b, snaps, undos, s) {
      assert RootedAt(fs, a, snaps, undos, s);
      assert CopiedAt(a, b, from, Live, {p}, s);
    }
  }

  /** Insert a live row and copy its chunk rows from a snapshot or an undo record. */
  method AttachPath(c: Connection, from: Owner, p: Path, row: Row)
    requires Sound(c) && p !in c.fs
    modifies c`fs, c`chunks, c`blobs, c`logical
    ensures Sound(c)
    ensures c.fs == old(c.fs)[p := row]
    ensures Copied(old(c.chunks), c.chunks, from, Live, {p})
  {
    ghost var fs, chunks := c.fs, c.chunks;
    NoRowVacant(fs, chunks, c.snaps, c.undos, {p});
    c.logical := c.logical + Weight(row);
    c.fs := c.fs[p := row];
    CopySlots(c, from, Live, {p});
    TotalWith(fs, p, row);
    AttachRooted(fs, chunks, c.chunks, c.snaps, c.undos, from, p, row);
  }
}
