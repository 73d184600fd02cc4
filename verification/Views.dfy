/** What the tables of a connection mean as a `World`, and the invariant of a database between operations. */
module Views {
  import opened Tables
  import opened Trees
  import opened Policy
  import opened Connections
  import opened Worlds

  ghost function SnapsOf(snaps: Snapshots, chunks: Chunks): map<nat, Tree> {
    map id | id in snaps :: TreeOf(snaps[id], chunks, Snapshot(id))
  }

  ghost function UndosOf(undos: Undos, chunks: Chunks): map<nat, Record> {
    map id | id in undos :: RecordOf(undos[id], chunks, Undo(id))
  }

  ghost function ViewOf(fs: Files, chunks: Chunks, dirty: set<Path>, snaps: Snapshots, undos: Undos): World {
    World(TreeOf(fs, chunks, Live), dirty, SnapsOf(snaps, chunks), UndosOf(undos, chunks))
  }

  ghost function View(c: Connection): World
    reads c
  {
    ViewOf(c.fs, c.chunks, c.dirty, c.snaps, c.undos)
  }

  // ------------------------------------------------------------------ the invariant

  /** The chunk row belongs to a row of its own kind: a live path, a snapshot entry, a captured entry. */
  ghost predicate RootedAt(fs: Files, chunks: Chunks, snaps: Snapshots, undos: Undos, s: Slot) {
    s in chunks ==>
      match s.owner
      case Live => s.path in fs
      case Snapshot(id) => id in snaps && s.path in snaps[id]
      case Undo(id) => id in undos && s.path in undos[id] && undos[id][s.path].Some?
  }

  ghost predicate Rooted(fs: Files, chunks: Chunks, snaps: Snapshots, undos: Undos) {
    forall s {:trigger RootedAt(fs, chunks, snaps, undos, s)} :: RootedAt(fs, chunks, snaps, undos, s)
  }

  /** Chunk rows and pending marks only where their path is, and the byte counter equal to the sum of the rows. */
  ghost predicate Shaped(c: Connection)
    reads c
  {
    && Rooted(c.fs, c.chunks, c.snaps, c.undos)
    && (forall p {:trigger p in c.dirty} :: p in c.dirty ==> p in c.fs)
    && c.logical == Total(c.fs)
  }

  /** Besides, exact positive counts and no chunk row without its blob: what the deep verification recomputes. */
  ghost predicate Counted(c: Connection)
    reads c
  {
    RefOk(c.chunks, c.blobs) && Idle(c.chunks, c.blobs) == {} && Shaped(c)
  }

  /** Besides, every block decodable. */
  ghost predicate Sound(c: Connection)
    reads c
  {
    Counted(c) && BlobsDecode(c.dicts, c.blobs)
  }

  // ------------------------------------------------------------------ a change in one chunk table only

  lemma KeptList(a: Chunks, b: Chunks, x: Owner, o: Owner, p: Path)
    requires Kept(a, b, x) && o != x
    ensures List(a, o, p) == List(b, o, p)
  {
    forall i: nat ensures SameSlot(a, o, b, o, p, i) {
      assert KeptSlot(a, b, x, Slot(o, p, i));
    }
    SameList(a, o, b, o, p);
  }

  lemma KeptTree(a: Chunks, b: Chunks, x: Owner, rows: Files, o: Owner)
    requires Kept(a, b, x) && o != x
    ensures TreeOf(rows, a, o) == TreeOf(rows, b, o)
  {
    var s, t := TreeOf(rows, a, o), TreeOf(rows, b, o);
    forall p ensures At(s, p) == At(t, p) { KeptList(a, b, x, o, p); }
    SameTree(s, t);
  }

  lemma SameRecord(s: Record, t: Record)
    requires s.Keys == t.Keys
    requires forall p {:trigger s[p]} :: p in s ==> s[p] == t[p]
    ensures s == t
  {
  }

  lemma KeptRecord(a: Chunks, b: Chunks, x: Owner, rows: map<Path, Option<Row>>, o: Owner)
    requires Kept(a, b, x) && o != x
    ensures RecordOf(rows, a, o) == RecordOf(rows, b, o)
  {
    var s, t := RecordOf(rows, a, o), RecordOf(rows, b, o);
    forall p {:trigger s[p]} | p in s ensures s[p] == t[p] { KeptList(a, b, x, o, p); }
    SameRecord(s, t);
  }

  lemma KeptSnaps(a: Chunks, b: Chunks, x: Owner, snaps: Snapshots)
    requires Kept(a, b, x) && (x.Snapshot? ==> x.id !in snaps)
    ensures SnapsOf(snaps, a) == SnapsOf(snaps, b)
  {
    forall id | id in snaps
      ensures TreeOf(snaps[id], a, Snapshot(id)) == TreeOf(snaps[id], b, Snapshot(id))
    {
      KeptTree(a, b, x, snaps[id], Snapshot(id));
    }
  }

  lemma KeptUndos(a: Chunks, b: Chunks, x: Owner, undos: Undos)
    requires Kept(a, b, x) && (x.Undo? ==> x.id !in undos)
    ensures UndosOf(undos, a) == UndosOf(undos, b)
  {
    forall id | id in undos
      ensures RecordOf(undos[id], a, Undo(id)) == RecordOf(undos[id], b, Undo(id))
    {
      KeptRecord(a, b, x, undos[id], Undo(id));
    }
  }

  /** A change of live rows only is a change of the live tree and the pending marks only. */
  lemma LiveChange(fs: Files, chunks: Chunks, dirty: set<Path>, fs': Files, chunks': Chunks, dirty': set<Path>,
                   snaps: Snapshots, undos: Undos)
    requires Kept(chunks, chunks', Live)
    ensures ViewOf(fs', chunks', dirty', snaps, undos) ==
      ViewOf(fs, chunks, dirty, snaps, undos).(live := TreeOf(fs', chunks', Live), dirty := dirty')
  {
    KeptSnaps(chunks, chunks', Live, snaps);
    KeptUndos(chunks, chunks', Live, undos);
  }
}
