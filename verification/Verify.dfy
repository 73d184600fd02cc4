/** The deep verification: every count recomputed from the rows. */
module Verify {
  import opened Tables
  import opened Trees
  import opened Policy
  import opened Connections
  import opened Views
  import opened Density

  /** The total size of the regular files, summed row by row. */
  method SumSizes(fs: Files) returns (t: nat)
    ensures t == Total(fs)
  {
    t := 0;
    var todo := fs;
    while todo != map[]
      invariant t + Total(todo) == Total(fs)
      decreases |todo|
    {
      var p :| p in todo;
      TotalWithout(todo, p);
      assert |todo - {p}| < |todo| by { assert todo == (todo - {p})[p := todo[p]]; }
      t := t + Weight(todo[p]);
      todo := todo - {p};
    }
  }

  ghost predicate HasChunksAt(fs: Files, chunks: Chunks, p: Path) {
    p in fs && fs[p].kind == File && fs[p].size > 0 ==> Slot(Live, p, 0) in chunks
  }

  /** Chunk lists are gap-free from 0, and every non-empty file has one. */
  ghost predicate Dense(fs: Files, chunks: Chunks) {
    && (forall o: Owner, p {:trigger Gapless(chunks, o, p)} :: !o.Undo? ==> Gapless(chunks, o, p))
    && (forall p {:trigger HasChunksAt(fs, chunks, p)} :: HasChunksAt(fs, chunks, p))
  }

  ghost predicate NoGapsOn(chunks: Chunks, lists: set<(Owner, Path)>) {
    forall o: Owner, p {:trigger Gapless(chunks, o, p)} :: (o, p) in lists ==> Gapless(chunks, o, p)
  }

  /** One count-and-maximum test for every live and every snapshot list. */
  method NoGaps(chunks: Chunks) returns (ok: bool)
    ensures ok <==> forall o: Owner, p {:trigger Gapless(chunks, o, p)} :: !o.Undo? ==> Gapless(chunks, o, p)
  {
    var lists := set s | s in chunks && !s.owner.Undo? :: (s.owner, s.path);
    var todo, done := lists, {};
    while todo != {}
      invariant done + todo == lists && NoGapsOn(chunks, done)
      decreases |todo|
    {
      var l :| l in todo;
      var dense, n := ChunksAreDense(chunks, l.0, l.1);
      if !dense { return false; }
      ghost var o, p := l.0, l.1;
      assert l == (o, p);
      todo, done := todo - {l}, done + {l};
    }
    forall s | s in chunks && !s.owner.Undo? ensures (s.owner, s.path) in lists {}
    forall o: Owner, p | !o.Undo? ensures Gapless(chunks, o, p) {
      if (o, p) !in lists {
        forall i: nat ensures Slot(o, p, i) !in chunks { var s := Slot(o, p, i); }
      }
    }
    ok := true;
  }

  /** The deep checks hold exactly when the counts are exact, no chunk row dangles, the byte counter is the
      sum of the rows, and the chunk lists have no gaps. */
  method DeepChecks(c: Connection) returns (ok: bool)
    ensures ok <==> RefOk(c.chunks, c.blobs) && c.logical == Total(c.fs) && Dense(c.fs, c.chunks)
  {
    var total := SumSizes(c.fs);
    var counts := forall k :: k in c.blobs ==> c.blobs[k].refcnt == Count(c.chunks, k);
    var orphans := exists s :: s in c.chunks && c.chunks[s] !in c.blobs;
    var dense := NoGaps(c.chunks);
    var empty := exists p :: p in c.fs && c.fs[p].kind == File && c.fs[p].size > 0 && Slot(Live, p, 0) !in c.chunks;
    if orphans {
      var s :| s in c.chunks && c.chunks[s] !in c.blobs;
      assert !HasBlob(c.chunks, c.blobs, s);
    } else {
      forall s ensures HasBlob(c.chunks, c.blobs, s) {}
    }
    if empty {
      var p :| p in c.fs && c.fs[p].kind == File && c.fs[p].size > 0 && Slot(Live, p, 0) !in c.chunks;
      assert !HasChunksAt(c.fs, c.chunks, p);
    }
    if counts && !orphans { assert RefOk(c.chunks, c.blobs); }
    ok := total == c.logical && counts && !orphans && dense && !empty;
  }

  ghost predicate HeldAt(fs: Files, chunks: Chunks, o: Owner, p: Path) {
    p in fs ==> Canonical(Entry(fs[p], List(chunks, o, p)))
  }

  /** A canonical entry's list has no gap. */
  lemma CanonicalNoGap(fs: Files, chunks: Chunks, o: Owner, p: Path)
    requires p in fs && Canonical(Entry(fs[p], List(chunks, o, p)))
    ensures Gapless(chunks, o, p)
  {
    var l := List(chunks, o, p);
    forall i: nat {:trigger Slot(o, p, i)} | Slot(o, p, i + 1) in chunks ensures Slot(o, p, i) in chunks {
      assert i + 1 in l;
      assert i in l;
    }
  }

  lemma CountedNoGap(c: Connection, o: Owner, p: Path)
    requires Counted(c) && !o.Undo?
    requires HeldAt(c.fs, c.chunks, Live, p)
    requires o.Snapshot? && o.id in c.snaps ==> HeldAt(c.snaps[o.id], c.chunks, o, p)
    ensures Gapless(c.chunks, o, p)
  {
    forall i: nat ensures RootedAt(c.fs, c.chunks, c.snaps, c.undos, Slot(o, p, i)) {}
    match o
    case Live => if p in c.fs { CanonicalNoGap(c.fs, c.chunks, o, p); }
    case Snapshot(id) => if id in c.snaps && p in c.snaps[id] { CanonicalNoGap(c.snaps[id], c.chunks, o, p); }
  }

  /** A database with exact counts whose live and snapshot entries are canonical passes. */
  lemma CountedPasses(c: Connection)
    requires Counted(c)
    requires forall p {:trigger HeldAt(c.fs, c.chunks, Live, p)} :: HeldAt(c.fs, c.chunks, Live, p)
    requires forall id, p {:trigger HeldAt(c.snaps[id], c.chunks, Snapshot(id), p)} ::
        id in c.snaps ==> HeldAt(c.snaps[id], c.chunks, Snapshot(id), p)
    ensures RefOk(c.chunks, c.blobs) && c.logical == Total(c.fs) && Dense(c.fs, c.chunks)
  {
    forall o: Owner, p | !o.Undo? ensures Gapless(c.chunks, o, p) { CountedNoGap(c, o, p); }
    forall p ensures HasChunksAt(c.fs, c.chunks, p) {
      assert HeldAt(c.fs, c.chunks, Live, p);
      if p in c.fs && c.fs[p].kind == File && c.fs[p].size > 0 { assert 0 in List(c.chunks, Live, p); }
    }
  }
}
