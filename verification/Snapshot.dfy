/** Content snapshots: rows and chunk references of the whole live tree, never blob bytes. */
module Snapshots {
  import opened Tables
  import opened Trees
  import opened Connections
  import opened Worlds
  import opened Views
  import opened Rows
  import opened Read
  import opened Hashes
  import opened UndoRecords

  // ------------------------------------------------------------------ create

  lemma FreshVacant(fs: Files, chunks: Chunks, snaps: Snapshots, undos: Undos, id: nat, ps: set<Path>)
    requires Rooted(fs, chunks, snaps, undos) && id !in snaps
    ensures Vacant(chunks, Snapshot(id), ps)
  {
    forall s ensures DroppedAt(chunks, chunks, Snapshot(id), ps, s) {
      assert RootedAt(fs, chunks, snaps, undos, s);
    }
  }

  lemma CreateRooted(fs: Files, a: Chunks, b: Chunks, snaps: Snapshots, undos: Undos, id: nat)
    requires Rooted(fs, a, snaps, undos) && id !in snaps && Copied(a, b, Live, Snapshot(id), fs.Keys)
    ensures Rooted(fs, b, snaps[id := fs], undos)
  {
    var sn := snaps[id := fs];
    forall s ensures RootedAt(fs, b, sn, undos, s) {
      assert RootedAt(fs, a, snaps, undos, s);
      assert CopiedAt(a, b, Live, Snapshot(id), fs.Keys, s);
    }
  }

  /** Capture the whole live tree. Pending hashes are computed first, so the snapshot never records the hash
      of old content. */
  method SnapshotCreate(c: Connection) returns (r: Result<nat>, ghost done: set<Path>)
    requires Sound(c)
    modifies c`fs, c`dirty, c`logical, c`snaps, c`chunks, c`blobs
    ensures Sound(c)
    ensures done <= old(c.dirty) && c.dirty == old(c.dirty) - done && Final(old(c.fs), c.fs, old(c.chunks), done)
    ensures c.rules == [] ==> (r.Ok? <==> FullOn(old(c.fs), old(c.chunks), old(c.dirty)))
    ensures r.Err? ==> c.snaps == old(c.snaps) && c.chunks == old(c.chunks)
    ensures r.Err? ==> exists p {:trigger Stuck(c, p)} :: Stuck(c, p)
    ensures r.Ok? ==>
      && c.dirty == {} && r.value !in old(c.snaps) && c.snaps == old(c.snaps)[r.value := c.fs]
      && (forall i {:trigger i in old(c.snaps)} :: i in old(c.snaps) ==> i < r.value)
      && Copied(old(c.chunks), c.chunks, Live, Snapshot(r.value), c.fs.Keys)
  {
    var f;
    f, done := FinalizeDirty(c);
    if f.Err? { return Err(f.error), done; }
    var id := NextId(c.snaps.Keys);
    ghost var chunks, snaps := c.chunks, c.snaps;
    FreshVacant(c.fs, chunks, snaps, c.undos, id, c.fs.Keys);
    CopySlots(c, Live, Snapshot(id), c.fs.Keys);
    c.snaps := c.snaps[id := c.fs];
    CreateRooted(c.fs, chunks, c.chunks, snaps, c.undos, id);
    r := Ok(id);
  }

  // ------------------------------------------------------------------ restore

  /** Replace the live tree by the snapshot's. The live references go first; the snapshot's own keep every
      blob it needs. Runs with the write policy bypassed. */
  method SnapshotRestore(c: Connection, id: nat) returns (r: Result<()>, ghost less: Chunks)
    requires Sound(c)
    modifies c`fs, c`chunks, c`blobs, c`dirty, c`logical
    ensures Sound(c)
    ensures r.Ok? <==> id in c.snaps
    ensures r.Err? ==> SameTables(c)
    ensures r.Ok? ==>
      && c.fs == c.snaps[id] && c.dirty == {}
      && Dropped(old(c.chunks), less, Live, old(c.fs).Keys)
      && Copied(less, c.chunks, Snapshot(id), Live, c.snaps[id].Keys)
  {
    less := c.chunks;
    if id !in c.snaps { return Err(NotFound), less; }
    DropPaths(c, c.fs.Keys);
    less := c.chunks;
    AllDropped(old(c.fs), old(c.dirty));
    AttachPaths(c, Snapshot(id), c.snaps[id]);
    assert map[] + c.snaps[id] == c.snaps[id];
    r := Ok(());
  }

  lemma AllDropped(fs: Files, dirty: set<Path>)
    requires forall p {:trigger p in dirty} :: p in dirty ==> p in fs
    ensures fs - fs.Keys == map[] && dirty - fs.Keys == {}
  {
  }

  // ------------------------------------------------------------------ delete and retain

  lemma SnapDeleteRooted(fs: Files, a: Chunks, b: Chunks, snaps: Snapshots, undos: Undos, id: nat)
    requires Rooted(fs, a, snaps, undos) && id in snaps && Dropped(a, b, Snapshot(id), snaps[id].Keys)
    ensures Rooted(fs, b, snaps - {id}, undos)
  {
    var sn := snaps - {id};
    forall s ensures RootedAt(fs, b, sn, undos, s) {
      assert RootedAt(fs, a, snaps, undos, s);
      assert DroppedAt(a, b, Snapshot(id), snaps[id].Keys, s);
    }
  }

  /** Delete a snapshot; a blob still held by the live tree, another snapshot or a record stays. */
  method SnapshotDelete(c: Connection, id: nat)
    requires Sound(c) && id in c.snaps
    modifies c`snaps, c`chunks, c`blobs
    ensures Sound(c) && c.snaps == old(c.snaps) - {id}
    ensures Dropped(old(c.chunks), c.chunks, Snapshot(id), old(c.snaps)[id].Keys)
  {
    ghost var chunks, snaps := c.chunks, c.snaps;
    DropSlots(c, Snapshot(id), c.snaps[id].Keys);
    c.snaps := c.snaps - {id};
    SnapDeleteRooted(c.fs, chunks, c.chunks, snaps, c.undos, id);
  }

  method Oldest(ids: set<nat>) returns (m: nat)
    requires ids != {}
    ensures m in ids && forall i {:trigger i in ids} :: i in ids ==> m <= i
  {
    m :| m in ids;
    var todo := ids;
    while todo != {}
      invariant todo <= ids && m in ids
      invariant forall i {:trigger i in ids} :: i in ids && i !in todo ==> m <= i
      decreases |todo|
    {
      var i :| i in todo;
      if i < m { m := i; }
      todo := todo - {i};
    }
  }

  ghost predicate KeptSnapAt(a: Chunks, b: Chunks, snaps: Snapshots, s: Slot) {
    (s.owner.Snapshot? ==> s.owner.id in snaps) ==> (s in b <==> s in a) && (s in b ==> b[s] == a[s])
  }

  /** Only chunk rows of snapshots outside `snaps` differ. */
  ghost predicate KeptSnapRows(a: Chunks, b: Chunks, snaps: Snapshots) {
    forall s {:trigger KeptSnapAt(a, b, snaps, s)} :: KeptSnapAt(a, b, snaps, s)
  }

  lemma KeptSnapNone(a: Chunks, snaps: Snapshots)
    ensures KeptSnapRows(a, a, snaps)
  {
    forall s ensures KeptSnapAt(a, a, snaps, s) {}
  }

  lemma KeptSnapMore(a: Chunks, m: Chunks, b: Chunks, snaps: Snapshots, id: nat)
    requires KeptSnapRows(a, m, snaps) && id in snaps && Dropped(m, b, Snapshot(id), snaps[id].Keys)
    ensures KeptSnapRows(a, b, snaps - {id})
  {
    var sn := snaps - {id};
    forall s ensures KeptSnapAt(a, b, sn, s) {
      assert KeptSnapAt(a, m, snaps, s);
      assert DroppedAt(m, b, Snapshot(id), snaps[id].Keys, s);
    }
  }

  ghost predicate RetainedAt(all: Snapshots, now: Snapshots, removed: set<nat>, id: nat) {
    (id in now <==> id in all && id !in removed) && (id in now ==> now[id] == all[id])
  }

  /** `now` is `all` without the snapshots `removed`. */
  ghost predicate Retained(all: Snapshots, now: Snapshots, removed: set<nat>) {
    forall id {:trigger RetainedAt(all, now, removed, id)} :: RetainedAt(all, now, removed, id)
  }

  lemma RetainedMore(all: Snapshots, now: Snapshots, removed: set<nat>, id: nat)
    requires Retained(all, now, removed) && id in now
    ensures Retained(all, now - {id}, removed + {id})
  {
    var n, r := now - {id}, removed + {id};
    forall i ensures RetainedAt(all, n, r, i) { assert RetainedAt(all, now, removed, i); }
  }

  /** Keep the newest `keep` snapshots, with all their rows, and delete the rest, oldest first. */
  method SnapshotRetain(c: Connection, keep: nat) returns (removed: set<nat>)
    requires Sound(c)
    modifies c`snaps, c`chunks, c`blobs
    ensures Sound(c)
    ensures Retained(old(c.snaps), c.snaps, removed) && removed <= old(c.snaps).Keys
    ensures |c.snaps| == if |old(c.snaps)| > keep then keep else |old(c.snaps)|
    ensures forall i, j {:trigger i in removed, j in c.snaps} :: i in removed && j in c.snaps ==> i < j
    ensures KeptSnapRows(old(c.chunks), c.chunks, c.snaps)
  {
    removed := {};
    ghost var last: int := -1;
    KeptSnapNone(c.chunks, c.snaps);
    forall i ensures RetainedAt(c.snaps, c.snaps, {}, i) {}
    while |c.snaps| > keep
      invariant Sound(c) && Retained(old(c.snaps), c.snaps, removed) && removed <= old(c.snaps).Keys
      invariant |c.snaps| == |old(c.snaps)| || keep <= |c.snaps| < |old(c.snaps)|
      invariant forall i {:trigger i in removed} :: i in removed ==> i <= last
      invariant forall j {:trigger j in c.snaps} :: j in c.snaps ==> last < j
      invariant KeptSnapRows(old(c.chunks), c.chunks, c.snaps)
      decreases |c.snaps|
    {
      var id := Oldest(c.snaps.Keys);
      assert RetainedAt(old(c.snaps), c.snaps, removed, id);
      ghost var chunks, snaps := c.chunks, c.snaps;
      OneLess(snaps, id);
      RetainedMore(old(c.snaps), snaps, removed, id);
      SnapshotDelete(c, id);
      KeptSnapMore(old(c.chunks), chunks, c.chunks, snaps, id);
      removed := removed + {id};
      last := id;
    }
  }

  lemma OneLess(snaps: Snapshots, id: nat)
    requires id in snaps
    ensures |snaps - {id}| == |snaps| - 1
  {
    assert snaps == (snaps - {id})[id := snaps[id]];
  }

  // ------------------------------------------------------------------ what these operations mean

  lemma SameSnaps(s: map<nat, Tree>, t: map<nat, Tree>)
    requires s.Keys == t.Keys
    requires forall id {:trigger s[id]} :: id in s ==> s[id] == t[id]
    ensures s == t
  {
  }

  lemma CreatedTree(fs: Files, a: Chunks, b: Chunks, id: nat)
    requires Copied(a, b, Live, Snapshot(id), fs.Keys)
    ensures TreeOf(fs, b, Snapshot(id)) == TreeOf(fs, a, Live)
  {
    var s, t := TreeOf(fs, b, Snapshot(id)), TreeOf(fs, a, Live);
    forall p ensures At(s, p) == At(t, p) { ListAfterCopy(a, b, Live, Snapshot(id), fs.Keys, Snapshot(id), p); }
    SameTree(s, t);
  }

  lemma CreatedSnaps(fs: Files, a: Chunks, b: Chunks, snaps: Snapshots, id: nat)
    requires id !in snaps && Copied(a, b, Live, Snapshot(id), fs.Keys)
    ensures SnapsOf(snaps[id := fs], b) == SnapsOf(snaps, a)[id := TreeOf(fs, a, Live)]
  {
    var s, t := SnapsOf(snaps[id := fs], b), SnapsOf(snaps, a)[id := TreeOf(fs, a, Live)];
    CopyKept(a, b, Live, Snapshot(id), fs.Keys);
    forall i {:trigger s[i]} | i in s ensures s[i] == t[i] {
      if i == id {
        CreatedTree(fs, a, b, id);
      } else {
        KeptTree(a, b, Snapshot(id), snaps[i], Snapshot(i));
      }
    }
    SameSnaps(s, t);
  }

  lemma CreateStep(w: World, id: nat)
    requires id !in w.snaps && w.dirty == {}
    ensures Step(w, SnapCreate(id)) == w.(snaps := w.snaps[id := w.live])
  {
  }

  lemma CreateRefines(fs: Files, a: Chunks, b: Chunks, snaps: Snapshots, undos: Undos, id: nat)
    requires id !in snaps && Copied(a, b, Live, Snapshot(id), fs.Keys)
    ensures ViewOf(fs, b, {}, snaps[id := fs], undos) == Step(ViewOf(fs, a, {}, snaps, undos), SnapCreate(id))
  {
    var w := ViewOf(fs, a, {}, snaps, undos);
    CreateStep(w, id);
    CopyKept(a, b, Live, Snapshot(id), fs.Keys);
    assert TreeOf(fs, b, Live) == w.live by { KeptTree(a, b, Snapshot(id), fs, Live); }
    assert UndosOf(undos, b) == w.undos by { KeptUndos(a, b, Snapshot(id), undos); }
    CreatedSnaps(fs, a, b, snaps, id);
  }

  lemma RestoredTree(rows: Files, fs: Files, a: Chunks, less: Chunks, b: Chunks, id: nat)
    requires Dropped(a, less, Live, fs.Keys) && Copied(less, b, Snapshot(id), Live, rows.Keys)
    ensures TreeOf(rows, b, Live) == TreeOf(rows, a, Snapshot(id))
  {
    var s, t := TreeOf(rows, b, Live), TreeOf(rows, a, Snapshot(id));
    forall p ensures At(s, p) == At(t, p) {
      ListAfterCopy(less, b, Snapshot(id), Live, rows.Keys, Live, p);
      ListAfterDrop(a, less, Live, fs.Keys, Snapshot(id), p);
    }
    SameTree(s, t);
  }

  lemma RestoreStep(w: World, id: nat)
    requires id in w.snaps
    ensures Step(w, SnapRestore(id)) == w.(live := w.snaps[id], dirty := {})
  {
  }

  lemma RestoreRefines(fs: Files, a: Chunks, less: Chunks, b: Chunks, dirty: set<Path>, snaps: Snapshots, undos: Undos,
                       id: nat)
    requires id in snaps && Dropped(a, less, Live, fs.Keys) && Copied(less, b, Snapshot(id), Live, snaps[id].Keys)
    ensures ViewOf(snaps[id], b, {}, snaps, undos) == Step(ViewOf(fs, a, dirty, snaps, undos), SnapRestore(id))
  {
    var w := ViewOf(fs, a, dirty, snaps, undos);
    assert w.snaps[id] == TreeOf(snaps[id], a, Snapshot(id));
    RestoreStep(w, id);
    assert Kept(a, b, Live) by {
      DropKept(a, less, Live, fs.Keys);
      CopyKept(less, b, Snapshot(id), Live, snaps[id].Keys);
      KeptTrans(a, less, b, Live);
    }
    LiveChange(fs, a, dirty, snaps[id], b, {}, snaps, undos);
    RestoredTree(snaps[id], fs, a, less, b, id);
  }

  lemma KeptSnapList(a: Chunks, b: Chunks, now: Snapshots, o: Owner, p: Path)
    requires KeptSnapRows(a, b, now) && (o.Snapshot? ==> o.id in now)
    ensures List(b, o, p) == List(a, o, p)
  {
    forall i: nat ensures SameSlot(b, o, a, o, p, i) { assert KeptSnapAt(a, b, now, Slot(o, p, i)); }
    SameList(b, o, a, o, p);
  }

  lemma KeptSnapTree(a: Chunks, b: Chunks, now: Snapshots, o: Owner, rows: Files)
    requires KeptSnapRows(a, b, now) && (o.Snapshot? ==> o.id in now)
    ensures TreeOf(rows, b, o) == TreeOf(rows, a, o)
  {
    var s, t := TreeOf(rows, b, o), TreeOf(rows, a, o);
    forall p ensures At(s, p) == At(t, p) { KeptSnapList(a, b, now, o, p); }
    SameTree(s, t);
  }

  lemma KeptSnapUndos(a: Chunks, b: Chunks, now: Snapshots, undos: Undos)
    requires KeptSnapRows(a, b, now)
    ensures UndosOf(undos, b) == UndosOf(undos, a)
  {
    forall id | id in undos ensures RecordOf(undos[id], b, Undo(id)) == RecordOf(undos[id], a, Undo(id)) {
      var s, t := RecordOf(undos[id], b, Undo(id)), RecordOf(undos[id], a, Undo(id));
      forall p {:trigger s[p]} | p in s ensures s[p] == t[p] { KeptSnapList(a, b, now, Undo(id), p); }
      SameRecord(s, t);
    }
  }

  lemma RetainedSnaps(a: Chunks, b: Chunks, snaps: Snapshots, now: Snapshots, removed: set<nat>)
    requires Retained(snaps, now, removed) && KeptSnapRows(a, b, now)
    ensures SnapsOf(now, b) == SnapsOf(snaps, a) - removed
  {
    var s, t := SnapsOf(now, b), SnapsOf(snaps, a) - removed;
    forall id ensures id in s <==> id in t { assert RetainedAt(snaps, now, removed, id); }
    forall id {:trigger s[id]} | id in s ensures s[id] == t[id] {
      assert RetainedAt(snaps, now, removed, id);
      KeptSnapTree(a, b, now, Snapshot(id), now[id]);
    }
    SameSnaps(s, t);
  }

  /** Removing snapshots is the delete step: those that stay, the live tree and the records are untouched. */
  lemma RetainRefines(fs: Files, a: Chunks, b: Chunks, dirty: set<Path>, snaps: Snapshots, now: Snapshots, undos: Undos,
                      removed: set<nat>)
    requires Retained(snaps, now, removed) && KeptSnapRows(a, b, now) && removed <= snaps.Keys
    ensures ViewOf(fs, b, dirty, now, undos) == Step(ViewOf(fs, a, dirty, snaps, undos), SnapDelete(removed))
  {
    var w := ViewOf(fs, a, dirty, snaps, undos);
    SnapDeleteStep(w, removed);
    assert TreeOf(fs, b, Live) == w.live by { KeptSnapTree(a, b, now, Live, fs); }
    assert UndosOf(undos, b) == w.undos by { KeptSnapUndos(a, b, now, undos); }
    RetainedSnaps(a, b, snaps, now, removed);
  }

  lemma SnapDeleteStep(w: World, ids: set<nat>)
    requires ids <= w.snaps.Keys
    ensures Step(w, SnapDelete(ids)) == w.(snaps := w.snaps - ids)
  {
  }

  /** Deleting one snapshot is the same step for one. */
  lemma SnapDeleteRefines(fs: Files, a: Chunks, b: Chunks, dirty: set<Path>, snaps: Snapshots, undos: Undos, id: nat)
    requires id in snaps && Dropped(a, b, Snapshot(id), snaps[id].Keys)
    ensures ViewOf(fs, b, dirty, snaps - {id}, undos) == Step(ViewOf(fs, a, dirty, snaps, undos), SnapDelete({id}))
  {
    var now := snaps - {id};
    KeptSnapNone(a, snaps);
    KeptSnapMore(a, a, b, snaps, id);
    forall i ensures RetainedAt(snaps, now, {id}, i) {}
    RetainRefines(fs, a, b, dirty, snaps, now, undos, {id});
  }
}
