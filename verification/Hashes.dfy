/** The whole-file hashes that deferred writes leave pending, and the meaning of ranged writes and of
    finalizing as steps of the abstract machine. */
module Hashes {
  import opened Tables
  import opened Chunking
  import opened Trees
  import opened Policy
  import opened Connections
  import opened Worlds
  import opened Views
  import opened Read
  import opened Store
  import opened Ranges

  // ------------------------------------------------------------------ recomputing a hash

  /** Chunk `i` of `p` is there with the length a file of `size` bytes has there. */
  ghost predicate FullAt(chunks: Chunks, p: Path, size: nat, i: nat) {
    Slot(Live, p, i) in chunks && |chunks[Slot(Live, p, i)].preimage| == Min(size - i * CHUNK_SIZE, CHUNK_SIZE)
  }

  ghost predicate Full(chunks: Chunks, p: Path, size: nat, n: nat) {
    forall i: nat {:trigger FullAt(chunks, p, size, i)} :: i < n ==> FullAt(chunks, p, size, i)
  }

  /** With exact counts and decodable blocks, chunks that are there can be read. */
  lemma FullLoads(c: Connection, p: Path, size: nat)
    requires Core(c.chunks, c.blobs, c.dicts) && Full(c.chunks, p, size, NumChunks(size))
    ensures AllLoad(c, null, p, 0, size)
  {
    forall i: nat | i < NumChunks(size) ensures LoadsAt(c, null, p, i) {
      assert FullAt(c.chunks, p, size, i);
      CoreLoads(c, null, p, i);
    }
  }

  /** SHA-256 over a file's chunks. It fails exactly when a chunk is missing, has the wrong length or cannot be
      decoded; otherwise it is the hash of the joined chunks. */
  method WholeFileHash(c: Connection, p: Path, size: nat) returns (r: Result<Key>)
    ensures r.Ok? <==> Full(c.chunks, p, size, NumChunks(size)) && AllLoad(c, null, p, 0, size)
    ensures r.Ok? ==> r.value == Sha256(Concat(List(c.chunks, Live, p), NumChunks(size)))
  {
    var h: Bytes := [];
    var i := 0;
    while i < NumChunks(size)
      invariant i <= NumChunks(size)
      invariant Full(c.chunks, p, size, i) && h == Concat(List(c.chunks, Live, p), i)
      invariant forall j: nat {:trigger LoadsAt(c, null, p, j)} :: j < i ==> LoadsAt(c, null, p, j)
    {
      var piece := ChunkBytes(c, null, p, i);
      if piece.Err? || |piece.value| != Min(size - i * CHUNK_SIZE, CHUNK_SIZE) {
        assert !FullAt(c.chunks, p, size, i) || !LoadsAt(c, null, p, i);
        return Err(Corrupt);
      }
      h := h + piece.value;
      i := i + 1;
    }
    r := Ok(Sha256(h));
  }

  /** A canonical entry has all its chunks in full length. */
  lemma CanonicalFull(fs: Files, chunks: Chunks, p: Path)
    requires p in fs && Canonical(Entry(fs[p], List(chunks, Live, p)))
    ensures Full(chunks, p, fs[p].size, NumChunks(fs[p].size))
  {
    if fs[p].kind == File {
      var s := Content(Entry(fs[p], List(chunks, Live, p)));
      CanonicalHolds(fs, chunks, p);
      forall i: nat | i < NumChunks(|s|) ensures FullAt(chunks, p, |s|, i) { assert HoldsAt(chunks, p, s, i); }
    }
  }

  // ------------------------------------------------------------------ one pending hash

  /** The row with the hash of its content. */
  ghost function FinalRow(fs: Files, chunks: Chunks, p: Path): Row
    requires p in fs
  {
    Finalized(Entry(fs[p], List(chunks, Live, p))).row
  }

  /** A pending file whose chunks are all there and whose row no rule protects. */
  ghost predicate CanFinalize(rules: seq<Rule>, fs: Files, chunks: Chunks, logical: int, p: Path) {
    && p in fs && Full(chunks, p, fs[p].size, NumChunks(fs[p].size))
    && !Refused(rules, fs, logical, p, FinalRow(fs, chunks, p))
  }

  /** Write the computed hash and take the mark away. */
  method StoreHash(c: Connection, p: Path, row: Row) returns (ok: bool)
    requires Shaped(c) && p in c.dirty
    modifies c`fs, c`dirty, c`logical
    ensures Shaped(c)
    ensures ok <==> !Refused(c.rules, old(c.fs), old(c.logical), p, row)
    ensures !ok ==> c.fs == old(c.fs) && c.dirty == old(c.dirty) && c.logical == old(c.logical)
    ensures ok ==> c.fs == old(c.fs)[p := row] && c.dirty == old(c.dirty) - {p}
  {
    ghost var fs := c.fs;
    ok := UpsertRow(c, p, row);
    if !ok { return; }
    c.dirty := c.dirty - {p};
    OthersSelf(c.chunks, p);
    OthersRooted(fs, c.chunks, c.chunks, c.snaps, c.undos, p, row);
  }

  /** Recompute the hash of `p` if a deferred write left it pending. */
  method FinalizeFile(c: Connection, p: Path) returns (r: Result<bool>)
    requires Shaped(c)
    modifies c`fs, c`dirty, c`logical
    ensures Shaped(c)
    ensures p !in old(c.dirty) ==> r == Ok(false)
    ensures p in old(c.dirty) ==> r != Ok(false)
    ensures p in old(c.dirty) ==> (r.Ok? <==>
        CanFinalize(c.rules, old(c.fs), c.chunks, old(c.logical), p) && AllLoad(c, null, p, 0, old(c.fs)[p].size))
    ensures p in old(c.dirty) && Core(c.chunks, c.blobs, c.dicts) ==>
      (r.Ok? <==> CanFinalize(c.rules, old(c.fs), c.chunks, old(c.logical), p))
    ensures r != Ok(true) ==> c.fs == old(c.fs) && c.dirty == old(c.dirty) && c.logical == old(c.logical)
    ensures r == Ok(true) ==>
      p in old(c.fs) && c.fs == old(c.fs)[p := FinalRow(old(c.fs), c.chunks, p)] && c.dirty == old(c.dirty) - {p}
    ensures r == Ok(true) ==>
      p in c.fs && c.fs[p].hash == Some(Sha256(Concat(List(c.chunks, Live, p), NumChunks(old(c.fs)[p].size))))
      && c.fs[p] == old(c.fs)[p].(hash := c.fs[p].hash)
  {
    if p !in c.dirty { return Ok(false); }
    var row := c.fs[p];
    var whole := WholeFileHash(c, p, row.size);
    if Core(c.chunks, c.blobs, c.dicts) && Full(c.chunks, p, row.size, NumChunks(row.size)) {
      FullLoads(c, p, row.size);
    }
    if whole.Err? { return Err(Corrupt); }
    assert row.(hash := Some(whole.value)) == FinalRow(c.fs, c.chunks, p);
    var ok := StoreHash(c, p, row.(hash := Some(whole.value)));
    r := if ok then Ok(true) else Err(Refusal);
  }

  lemma OthersSelf(chunks: Chunks, p: Path)
    ensures Others(chunks, chunks, p)
  {
    forall s ensures OthersAt(chunks, chunks, p, s) {}
  }

  // ------------------------------------------------------------------ all pending hashes

  ghost predicate FinalAt(fs: Files, fs': Files, chunks: Chunks, done: set<Path>, p: Path) {
    && (p in fs' <==> p in fs)
    && (p in fs ==> fs'[p] == if p in done then FinalRow(fs, chunks, p) else fs[p])
  }

  /** `fs'` is `fs` with the hashes of the paths `done` recomputed. */
  ghost predicate Final(fs: Files, fs': Files, chunks: Chunks, done: set<Path>) {
    forall p {:trigger FinalAt(fs, fs', chunks, done, p)} :: FinalAt(fs, fs', chunks, done, p)
  }

  lemma FinalNone(fs: Files, chunks: Chunks)
    ensures Final(fs, fs, chunks, {})
  {
    forall p ensures FinalAt(fs, fs, chunks, {}, p) {}
  }

  lemma FinalMore(fs: Files, m: Files, chunks: Chunks, done: set<Path>, p: Path)
    requires Final(fs, m, chunks, done) && p in m && p !in done
    ensures Final(fs, m[p := FinalRow(m, chunks, p)], chunks, done + {p})
  {
    var f, d := m[p := FinalRow(m, chunks, p)], done + {p};
    assert FinalAt(fs, m, chunks, done, p);
    forall q ensures FinalAt(fs, f, chunks, d, q) { assert FinalAt(fs, m, chunks, done, q); }
  }

  /** The chunks of all the paths are there in full length. */
  ghost predicate FullOn(fs: Files, chunks: Chunks, ps: set<Path>) {
    forall p {:trigger p in ps} :: p in ps ==> p in fs && Full(chunks, p, fs[p].size, NumChunks(fs[p].size))
  }

  /** The hash of the pending file `p` cannot be computed, or the rules refuse the row with it. */
  ghost predicate Stuck(c: Connection, p: Path)
    reads c
  {
    && p in c.dirty && p in c.fs
    && !(CanFinalize(c.rules, c.fs, c.chunks, c.logical, p) && AllLoad(c, null, p, 0, c.fs[p].size))
  }

  method FinalizeNext(c: Connection, ghost fs: Files, ghost done: set<Path>, p: Path) returns (r: Result<()>)
    requires Shaped(c) && p in c.dirty && p !in done && Final(fs, c.fs, c.chunks, done)
    modifies c`fs, c`dirty, c`logical
    ensures Shaped(c)
    ensures r.Err? ==> c.fs == old(c.fs) && c.dirty == old(c.dirty) && Stuck(c, p)
    ensures r.Ok? ==> c.dirty == old(c.dirty) - {p} && Final(fs, c.fs, c.chunks, done + {p})
    ensures r.Ok? && p in fs ==> Full(c.chunks, p, fs[p].size, NumChunks(fs[p].size))
    ensures c.rules == [] && Core(c.chunks, c.blobs, c.dicts) && p in fs ==>
      (r.Ok? <==> Full(c.chunks, p, fs[p].size, NumChunks(fs[p].size)))
  {
    assert FinalAt(fs, c.fs, c.chunks, done, p);
    FinalMore(fs, c.fs, c.chunks, done, p);
    var one := FinalizeFile(c, p);
    if one.Err? { return Err(one.error); }
    assert one.value;
    r := Ok(());
  }

  /** Recompute every pending hash, stopping at the first that fails, and only there. Without rules it succeeds
      exactly when the chunks of all pending files are there in full length. */
  method FinalizeDirty(c: Connection) returns (r: Result<()>, ghost done: set<Path>)
    requires Shaped(c)
    modifies c`fs, c`dirty, c`logical
    ensures Shaped(c)
    ensures done <= old(c.dirty) && c.dirty == old(c.dirty) - done && Final(old(c.fs), c.fs, c.chunks, done)
    ensures r.Ok? ==> c.dirty == {} && done == old(c.dirty)
    ensures r.Err? ==> exists p {:trigger Stuck(c, p)} :: Stuck(c, p)
    ensures r.Ok? ==> FullOn(old(c.fs), c.chunks, old(c.dirty))
    ensures c.rules == [] && Core(c.chunks, c.blobs, c.dicts) && FullOn(old(c.fs), c.chunks, old(c.dirty)) ==> r.Ok?
  {
    var todo := c.dirty;
    done := {};
    FinalNone(c.fs, c.chunks);
    while todo != {}
      invariant Shaped(c) && done <= old(c.dirty) && todo == c.dirty == old(c.dirty) - done
      invariant Final(old(c.fs), c.fs, c.chunks, done)
      invariant FullOn(old(c.fs), c.chunks, done)
      decreases |todo|
    {
      var p :| p in todo;
      assert p in old(c.dirty);
      r := FinalizeNext(c, old(c.fs), done, p);
      if r.Err? { return; }
      done := done + {p};
      todo := todo - {p};
    }
    r := Ok(());
  }

  // ------------------------------------------------------------------ what these operations mean

  /** Recomputing hashes keeps the total size. */
  lemma FinalTotal(fs: Files, fs': Files, chunks: Chunks, done: set<Path>)
    requires Final(fs, fs', chunks, done)
    ensures Total(fs') == Total(fs)
  {
    forall p ensures (p in fs' <==> p in fs) && WeightAt(fs', p) == WeightAt(fs, p) {
      assert FinalAt(fs, fs', chunks, done, p);
    }
    assert fs.Keys == fs'.Keys;
    SameTotal(fs, fs');
  }

  lemma FinalizeAllTree(fs: Files, fs': Files, chunks: Chunks, done: set<Path>)
    requires Final(fs, fs', chunks, done)
    ensures TreeOf(fs', chunks, Live) == FinalTree(TreeOf(fs, chunks, Live), done)
  {
    var s, t := TreeOf(fs', chunks, Live), FinalTree(TreeOf(fs, chunks, Live), done);
    forall p ensures At(s, p) == At(t, p) { assert FinalAt(fs, fs', chunks, done, p); }
    SameTree(s, t);
  }

  lemma OthersKept(a: Chunks, b: Chunks, p: Path)
    requires Others(a, b, p)
    ensures Kept(a, b, Live)
  {
    forall s ensures KeptSlot(a, b, Live, s) { assert OthersAt(a, b, p, s); }
  }

  lemma OthersTree(fs: Files, a: Chunks, b: Chunks, p: Path, row: Row)
    requires Others(a, b, p)
    ensures TreeOf(fs[p := row], b, Live) == TreeOf(fs, a, Live)[p := Entry(row, List(b, Live, p))]
  {
    var s, t := TreeOf(fs[p := row], b, Live), TreeOf(fs, a, Live)[p := Entry(row, List(b, Live, p))];
    forall q ensures At(s, q) == At(t, q) {
      if q != p {
        forall i: nat ensures SameSlot(a, Live, b, Live, q, i) { assert OthersAt(a, b, p, Slot(Live, q, i)); }
        SameList(a, Live, b, Live, q);
      }
    }
    SameTree(s, t);
  }

  /** A ranged write or truncate that leaves the bytes `t` is the deferred write of `t`. */
  lemma DeferRefines(fs: Files, a: Chunks, b: Chunks, dirty: set<Path>, snaps: Snapshots, undos: Undos, p: Path,
                     t: Bytes, mtime: int)
    requires p in fs && fs[p].kind == File && Others(a, b, p)
    requires FileHolds(fs[p := fs[p].(size := |t|, mtime := mtime)], b, p, t)
    ensures ViewOf(fs[p := fs[p].(size := |t|, mtime := mtime)], b, dirty + {p}, snaps, undos) ==
      Step(ViewOf(fs, a, dirty, snaps, undos), Defer(p, t, mtime))
  {
    var row := fs[p].(size := |t|, mtime := mtime);
    OthersKept(a, b, p);
    LiveChange(fs, a, dirty, fs[p := row], b, dirty + {p}, snaps, undos);
    OthersTree(fs, a, b, p, row);
    FileHoldsList(fs[p := row], b, p, t);
  }

  lemma FinalizeStep(w: World, ps: set<Path>)
    requires Enabled(w, Finalize(ps))
    ensures Step(w, Finalize(ps)) == w.(live := FinalTree(w.live, ps), dirty := w.dirty - ps)
  {
  }

  /** Recomputing pending hashes is the finalize step. */
  lemma FinalizeRefines(fs: Files, fs': Files, chunks: Chunks, dirty: set<Path>, snaps: Snapshots, undos: Undos,
                        done: set<Path>)
    requires Final(fs, fs', chunks, done) && done <= dirty
    ensures Enabled(ViewOf(fs, chunks, dirty, snaps, undos), Finalize(done))
    ensures ViewOf(fs', chunks, dirty - done, snaps, undos) ==
      Step(ViewOf(fs, chunks, dirty, snaps, undos), Finalize(done))
  {
    FinalizeStep(ViewOf(fs, chunks, dirty, snaps, undos), done);
    FinalizeAllTree(fs, fs', chunks, done);
  }
}
