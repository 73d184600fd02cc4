/** Ranged writes and truncation of a live file with the whole-file hash deferred, and the recomputation of
    deferred hashes. */
module Ranges {
  import opened Tables
  import opened Chunking
  import opened Policy
  import opened Connections
  import opened Views
  import opened Read
  import opened Store

  // ------------------------------------------------------------------ one chunk

  lemma EnsuredSurvives(chunks: Chunks, blobs: Blobs, dicts: Dicts, s: Slot, k: Key)
    requires k in blobs && s in chunks && chunks[s] != k
    ensures Keeps(chunks, blobs, chunks - {s}, Release(blobs, chunks[s]), dicts)
    ensures k in Release(blobs, chunks[s])
  {
    DeleteOne(chunks, blobs, dicts, s);
  }

  /** Point chunk `idx` of `p` at `piece`. An unchanged chunk is left alone entirely: deleting its row would
      drop the very blob the re-insert needs. */
  method PutChunk(c: Connection, cache: ChunkCache?, p: Path, idx: nat, piece: Bytes)
    requires Core(c.chunks, c.blobs, c.dicts) && (cache != null ==> cache.Valid())
    modifies c`chunks, c`blobs, cache
    ensures cache != null ==> cache.Valid()
    ensures Core(c.chunks, c.blobs, c.dicts) && Idle(c.chunks, c.blobs) <= old(Idle(c.chunks, c.blobs))
    ensures c.chunks == old(c.chunks)[Slot(Live, p, idx) := Sha256(piece)]
  {
    var slot, key := Slot(Live, p, idx), Sha256(piece);
    if slot in c.chunks && c.chunks[slot] == key { return; }
    BlobEnsure(c, piece);
    if slot in c.chunks {
      EnsuredSurvives(c.chunks, c.blobs, c.dicts, slot, key);
      c.blobs := Release(c.blobs, c.chunks[slot]);
      c.chunks := c.chunks - {slot};
    }
    InsertOne(c.chunks, c.blobs, c.dicts, slot, key);
    c.blobs := Bump(c.blobs, key);
    c.chunks := c.chunks[slot := key];
    assert c.chunks == old(c.chunks)[slot := key];
    if cache != null { cache.Put(key, piece); }
  }

  // ------------------------------------------------------------------ the bytes of one patched chunk

  /** The chunk at `base`, at least `want` bytes long: the old bytes, zeros past them, `data` laid over the
      first `want`. */
  function Patched(piece: Bytes, base: nat, want: nat, off: nat, data: Bytes): Bytes {
    seq(Max(want, |piece|), j requires 0 <= j < Max(want, |piece|) =>
      if off <= base + j < off + |data| && j < want then data[base + j - off]
      else if j < |piece| then piece[j] else 0)
  }

  lemma OverlayAt(s: Bytes, at: nat, d: Bytes)
    requires at + |d| <= |s|
    ensures var r := s[..at] + d + s[at + |d|..];
      |r| == |s| && forall j :: 0 <= j < |s| ==> r[j] == if at <= j < at + |d| then d[j - at] else s[j]
  {
  }

  /** Byte `j` of a chunk at `base` once the part `from..to` of `data` (written at `off`) is laid over it. */
  function Laid(s: Bytes, base: nat, from: nat, to: nat, off: nat, data: Bytes, j: nat): Byte
    requires off <= from && to <= off + |data| && j < |s|
  {
    if from <= base + j < to then data[base + j - off] else s[j]
  }

  lemma LaidOver(s: Bytes, base: nat, from: nat, to: nat, off: nat, data: Bytes)
    requires off <= from && base <= from < to <= off + |data| && to <= base + |s|
    ensures var r := s[..from - base] + data[from - off..to - off] + s[to - base..];
      |r| == |s| && forall j {:trigger r[j]} :: 0 <= j < |s| ==> r[j] == Laid(s, base, from, to, off, data, j)
  {
    var d := data[from - off..to - off];
    OverlayAt(s, from - base, d);
    forall i | 0 <= i < |d| ensures d[i] == data[from - off + i] {}
  }

  /** A padded chunk with the data laid over it is the patched chunk. */
  lemma LaidIsPatched(piece: Bytes, padded: Bytes, base: nat, want: nat, from: nat, to: nat, off: nat, data: Bytes,
                      r: Bytes)
    requires padded == (if |piece| < want then piece + Zeros(want - |piece|) else piece) && |r| == |padded|
    requires from == Max(off, base) && to == Min(off + |data|, base + want)
    requires forall j {:trigger r[j]} :: 0 <= j < |r| ==> r[j] == Laid(padded, base, from, to, off, data, j)
    ensures r == Patched(piece, base, want, off, data)
  {
    var t := Patched(piece, base, want, off, data);
    assert |r| == |t|;
    forall j | 0 <= j < |r| ensures r[j] == t[j] {}
  }

  method Patch(piece: Bytes, base: nat, want: nat, off: nat, data: Bytes) returns (r: Bytes)
    ensures r == Patched(piece, base, want, off, data)
  {
    r := piece;
    if |r| < want { r := r + Zeros(want - |piece|); }
    ghost var padded := r;
    var from, to := Max(off, base), Min(off + |data|, base + want);
    if from < to {
      LaidOver(r, base, from, to, off, data);
      r := r[..from - base] + data[from - off..to - off] + r[to - base..];
    }
    LaidIsPatched(piece, padded, base, want, from, to, off, data, r);
  }

  /** Chunk by chunk, patching gives the pieces of the spliced content. */
  lemma PatchedIsPiece(s: Bytes, off: nat, data: Bytes, i: nat)
    requires data != [] && i * CHUNK_SIZE < Max(|s|, off + |data|)
    ensures var new_size := Max(|s|, off + |data|);
      var base := i * CHUNK_SIZE;
      Patched(Piece(s, i), base, Min(base + CHUNK_SIZE, new_size) - base, off, data) == Piece(Splice(s, off, data), i)
  {
    var t, base := Splice(s, off, data), i * CHUNK_SIZE;
    SpliceAt(s, off, data);
    var want := Min(base + CHUNK_SIZE, |t|) - base;
    assert |Piece(s, i)| <= want && |Piece(t, i)| == want;
    forall j | 0 <= j < want ensures Patched(Piece(s, i), base, want, off, data)[j] == Piece(t, i)[j] {
      assert Piece(t, i)[j] == t[base + j];
      assert base + j < |s| ==> j < |Piece(s, i)| && Piece(s, i)[j] == s[base + j];
    }
  }

  /** A chunk the write does not reach keeps its piece. */
  lemma UntouchedPiece(s: Bytes, off: nat, data: Bytes, i: nat)
    requires data != [] && (i < Min(off, |s|) / CHUNK_SIZE || i > (off + |data| - 1) / CHUNK_SIZE)
    ensures Piece(Splice(s, off, data), i) == Piece(s, i)
    ensures i < NumChunks(|Splice(s, off, data)|) <==> i < NumChunks(|s|)
  {
    var t, a, b := Splice(s, off, data), i * CHUNK_SIZE, (i + 1) * CHUNK_SIZE;
    SpliceAt(s, off, data);
    if i < Min(off, |s|) / CHUNK_SIZE {
      assert b <= |s| && b <= off && b <= |t|;
    } else {
      assert a >= off + |data|;
      assert |s| > a ==> |t| == |s|;
    }
    var x, y := Piece(t, i), Piece(s, i);
    assert |x| == |y|;
    forall j | 0 <= j < |x| ensures x[j] == y[j] { assert x[j] == t[a + j] && y[j] == s[a + j]; }
  }

  // ------------------------------------------------------------------ a run of chunks

  ghost predicate PieceAt(chunks: Chunks, p: Path, t: Bytes, j: nat) {
    Slot(Live, p, j) in chunks && chunks[Slot(Live, p, j)] == Sha256(Piece(t, j))
  }

  /** Chunk rows `lo..hi` of `p` are pieces of `t`. */
  ghost predicate PiecesOn(chunks: Chunks, p: Path, t: Bytes, lo: nat, hi: nat) {
    forall j: nat {:trigger PieceAt(chunks, p, t, j)} :: lo <= j < hi ==> PieceAt(chunks, p, t, j)
  }

  ghost predicate FrameAt(a: Chunks, b: Chunks, p: Path, lo: nat, hi: nat, s: Slot) {
    !(s.owner == Live && s.path == p && lo <= s.idx < hi) ==> (s in b <==> s in a) && (s in b ==> b[s] == a[s])
  }

  /** Only chunk rows `lo..hi` of `p` differ. */
  ghost predicate Frame(a: Chunks, b: Chunks, p: Path, lo: nat, hi: nat) {
    forall s {:trigger FrameAt(a, b, p, lo, hi, s)} :: FrameAt(a, b, p, lo, hi, s)
  }

  lemma FrameMore(a: Chunks, b: Chunks, p: Path, lo: nat, hi: nat, k: Key)
    requires lo <= hi && Frame(a, b, p, lo, hi)
    ensures Frame(a, b[Slot(Live, p, hi) := k], p, lo, hi + 1)
  {
    var d, m := b[Slot(Live, p, hi) := k], hi + 1;
    forall s ensures FrameAt(a, d, p, lo, m, s) { assert FrameAt(a, b, p, lo, hi, s); }
  }

  lemma PiecesMore(b: Chunks, p: Path, t: Bytes, lo: nat, hi: nat, k: Key)
    requires PiecesOn(b, p, t, lo, hi) && k == Sha256(Piece(t, hi))
    ensures PiecesOn(b[Slot(Live, p, hi) := k], p, t, lo, hi + 1)
  {
    var d := b[Slot(Live, p, hi) := k];
    forall j: nat | lo <= j < hi + 1 ensures PieceAt(d, p, t, j) {
      assert j < hi ==> PieceAt(b, p, t, j);
    }
  }

  /** The old bytes of chunk `i`, when the rows before it may already be rewritten. */
  method OldPiece(c: Connection, cache: ChunkCache?, p: Path, ghost a: Chunks, ghost lo: nat,
                  i: nat) returns (r: Result<Bytes>)
    requires Core(c.chunks, c.blobs, c.dicts) && (cache != null ==> cache.Valid())
    requires p in c.fs && c.fs[p].kind == File && Frame(a, c.chunks, p, lo, i)
    modifies cache
    ensures cache != null ==> cache.Valid()
    ensures c.fs[p].hash.None? && i * CHUNK_SIZE < c.fs[p].size ==> r.Err?
    ensures c.fs[p].hash.Some? || i * CHUNK_SIZE >= c.fs[p].size ==>
      forall s {:trigger FileHolds(c.fs, a, p, s)} :: FileHolds(c.fs, a, p, s) ==> r == Ok(Piece(s, i))
  {
    var base := i * CHUNK_SIZE;
    if base < c.fs[p].size {
      r := ReadRange(c, cache, p, base, CHUNK_SIZE);
    } else {
      r := Ok([]);
    }
    forall s {:trigger FileHolds(c.fs, a, p, s)}
      | FileHolds(c.fs, a, p, s) && (c.fs[p].hash.Some? || base >= c.fs[p].size) ensures r == Ok(Piece(s, i))
    {
      assert HoldsAt(a, p, s, i);
      assert FrameAt(a, c.chunks, p, lo, i, Slot(Live, p, i));
      assert HoldsAt(c.chunks, p, s, i);
      assert RangeHolds(c.fs, c.chunks, p, s, base, CHUNK_SIZE);
      assert base >= |s| ==> Piece(s, i) == [];
      assert base < |s| ==> Slice(s, base, CHUNK_SIZE) == Piece(s, i);
    }
  }

  /** A write at `off` needs no old bytes: it starts at or past the end of a file of whole chunks. */
  predicate NeedsNoOld(size: nat, off: nat) {
    Min(off, size) / CHUNK_SIZE * CHUNK_SIZE >= size
  }

  /** Old bytes can only be read of a file with a stored hash. */
  predicate Writable(fs: Files, p: Path, off: nat) {
    p in fs && (fs[p].hash.Some? || NeedsNoOld(fs[p].size, off))
  }

  /** Rewrite the chunks the write reaches, from the old end if it starts past it. */
  method WriteChunks(c: Connection, cache: ChunkCache?, p: Path, off: nat, data: Bytes) returns (ok: bool)
    requires Core(c.chunks, c.blobs, c.dicts) && (cache != null ==> cache.Valid())
    requires p in c.fs && c.fs[p].kind == File && data != []
    modifies c`chunks, c`blobs, cache
    ensures cache != null ==> cache.Valid()
    ensures Core(c.chunks, c.blobs, c.dicts) && Idle(c.chunks, c.blobs) <= old(Idle(c.chunks, c.blobs))
    ensures var lo, hi := Min(off, c.fs[p].size) / CHUNK_SIZE, (off + |data| - 1) / CHUNK_SIZE + 1;
      && (ok ==> Frame(old(c.chunks), c.chunks, p, lo, hi))
      && forall s {:trigger FileHolds(c.fs, old(c.chunks), p, s)} :: FileHolds(c.fs, old(c.chunks), p, s) ==>
        (ok <==> Writable(c.fs, p, off)) && (ok ==> PiecesOn(c.chunks, p, Splice(s, off, data), lo, hi))
  {
    var size := c.fs[p].size;
    var newSize := Max(size, off + |data|);
    var first, last := Min(off, size) / CHUNK_SIZE, (off + |data| - 1) / CHUNK_SIZE;
    var i := first;
    while i <= last
      invariant first <= i <= last + 1
      invariant cache != null ==> cache.Valid()
      invariant Core(c.chunks, c.blobs, c.dicts) && Idle(c.chunks, c.blobs) <= old(Idle(c.chunks, c.blobs))
      invariant Frame(old(c.chunks), c.chunks, p, first, i)
      invariant forall s {:trigger FileHolds(c.fs, old(c.chunks), p, s)} :: FileHolds(c.fs, old(c.chunks), p, s) ==>
        PiecesOn(c.chunks, p, Splice(s, off, data), first, i)
      invariant i > first ==> Writable(c.fs, p, off)
    {
      var base := i * CHUNK_SIZE;
      var want := Min(base + CHUNK_SIZE, newSize) - base;
      var piece := OldPiece(c, cache, p, old(c.chunks), first, i);
      if piece.Err? { return false; }
      var patched := Patch(piece.value, base, want, off, data);
      FrameMore(old(c.chunks), c.chunks, p, first, i, Sha256(patched));
      forall s {:trigger FileHolds(c.fs, old(c.chunks), p, s)} | FileHolds(c.fs, old(c.chunks), p, s)
        ensures PiecesOn(c.chunks[Slot(Live, p, i) := Sha256(patched)], p, Splice(s, off, data), first, i + 1)
      {
        PatchedIsPiece(s, off, data, i);
        PiecesMore(c.chunks, p, Splice(s, off, data), first, i, Sha256(patched));
      }
      PutChunk(c, cache, p, i, patched);
      i := i + 1;
    }
    ok := true;
  }

  // ------------------------------------------------------------------ ranged write

  ghost predicate OthersAt(a: Chunks, b: Chunks, p: Path, s: Slot) {
    !(s.owner == Live && s.path == p) ==> (s in b <==> s in a) && (s in b ==> b[s] == a[s])
  }

  /** Only live chunk rows of `p` differ. */
  ghost predicate Others(a: Chunks, b: Chunks, p: Path) {
    forall s {:trigger OthersAt(a, b, p, s)} :: OthersAt(a, b, p, s)
  }

  lemma FrameOthers(a: Chunks, b: Chunks, p: Path, lo: nat, hi: nat)
    requires Frame(a, b, p, lo, hi)
    ensures Others(a, b, p)
  {
    forall s ensures OthersAt(a, b, p, s) { assert FrameAt(a, b, p, lo, hi, s); }
  }

  lemma OthersRooted(fs: Files, a: Chunks, b: Chunks, snaps: Snapshots, undos: Undos, p: Path, row: Row)
    requires Rooted(fs, a, snaps, undos) && Others(a, b, p)
    ensures Rooted(fs[p := row], b, snaps, undos)
  {
    var f := fs[p := row];
    forall s ensures RootedAt(f, b, snaps, undos, s) {
      assert RootedAt(fs, a, snaps, undos, s);
      assert OthersAt(a, b, p, s);
    }
  }

  lemma SplicedHolds(fs: Files, a: Chunks, b: Chunks, p: Path, s: Bytes, off: nat, data: Bytes, row: Row)
    requires FileHolds(fs, a, p, s) && data != []
    requires row.kind == File && row.size == Max(|s|, off + |data|)
    requires var lo, hi := Min(off, |s|) / CHUNK_SIZE, (off + |data| - 1) / CHUNK_SIZE + 1;
      Frame(a, b, p, lo, hi) && PiecesOn(b, p, Splice(s, off, data), lo, hi)
    ensures FileHolds(fs[p := row], b, p, Splice(s, off, data))
  {
    var t := Splice(s, off, data);
    var lo, hi := Min(off, |s|) / CHUNK_SIZE, (off + |data| - 1) / CHUNK_SIZE + 1;
    SpliceAt(s, off, data);
    forall i: nat ensures HoldsAt(b, p, t, i) {
      if lo <= i < hi {
        assert PieceAt(b, p, t, i);
      } else {
        UntouchedPiece(s, off, data, i);
        assert FrameAt(a, b, p, lo, hi, Slot(Live, p, i));
        assert HoldsAt(a, p, s, i);
      }
    }
  }

  /** `UPDATE` of a file's size and time, and the mark that its hash is pending. */
  method MarkDirty(c: Connection, p: Path, size: nat, mtime: int) returns (ok: bool)
    requires p in c.fs
    modifies c`fs, c`dirty, c`logical
    ensures ok <==> !Refused(c.rules, old(c.fs), old(c.logical), p, old(c.fs)[p].(size := size, mtime := mtime))
    ensures !ok ==> c.fs == old(c.fs) && c.dirty == old(c.dirty) && c.logical == old(c.logical)
    ensures ok ==> c.fs == old(c.fs)[p := old(c.fs)[p].(size := size, mtime := mtime)] && c.dirty == old(c.dirty) + {p}
    ensures ok && old(c.logical) == Total(old(c.fs)) ==> c.logical == Total(c.fs)
  {
    ok := UpsertRow(c, p, c.fs[p].(size := size, mtime := mtime));
    if ok { c.dirty := c.dirty + {p}; }
  }

  /** Write `data` at `off`, rewriting only the chunks it touches; the whole-file hash is left pending. On
      any failure the tables are as they were. */
  method WriteRangeDeferred(c: Connection, cache: ChunkCache?, p: Path, off: nat, data: Bytes,
                            mtime: int) returns (r: Result<()>)
    requires Sound(c) && (cache != null ==> cache.Valid())
    modifies c`fs, c`chunks, c`blobs, c`dirty, c`logical, cache
    ensures Sound(c) && (cache != null ==> cache.Valid())
    ensures p !in old(c.fs) ==> r == Err(NotFound)
    ensures p in old(c.fs) && old(c.fs)[p].kind != File ==> r == Err(NotAFile)
    ensures r.Err? || data == [] ==>
      SameTables(c)
    ensures r.Ok? && data != [] ==>
      && p in old(c.fs)
      && c.fs == old(c.fs)[p := old(c.fs)[p].(size := Max(old(c.fs)[p].size, off + |data|), mtime := mtime)]
      && c.dirty == old(c.dirty) + {p} && Others(old(c.chunks), c.chunks, p)
    ensures forall s {:trigger FileHolds(old(c.fs), old(c.chunks), p, s)} ::
      FileHolds(old(c.fs), old(c.chunks), p, s) ==>
        var row := old(c.fs)[p].(size := Max(|s|, off + |data|), mtime := mtime);
        var accepted := !Refused(c.rules, old(c.fs), old(c.logical), p, row);
        && (r.Ok? <==> data == [] || (Writable(old(c.fs), p, off) && accepted))
        && (r.Ok? ==> FileHolds(c.fs, c.chunks, p, Splice(s, off, data)))
  {
    if p !in c.fs { return Err(NotFound); }
    if c.fs[p].kind != File { return Err(NotAFile); }
    if data == [] { return Ok(()); }
    var savedChunks, savedBlobs := c.chunks, c.blobs;
    ghost var fs, lo, hi := c.fs, Min(off, c.fs[p].size) / CHUNK_SIZE, (off + |data| - 1) / CHUNK_SIZE + 1;
    var wrote := WriteChunks(c, cache, p, off, data);
    var ok := false;
    if wrote { ok := MarkDirty(c, p, Max(c.fs[p].size, off + |data|), mtime); }
    if !ok {
      c.chunks, c.blobs := savedChunks, savedBlobs;
      return Err(if wrote then Refusal else Corrupt);
    }
    FrameOthers(savedChunks, c.chunks, p, lo, hi);
    OthersRooted(fs, savedChunks, c.chunks, c.snaps, c.undos, p, c.fs[p]);
    forall s {:trigger FileHolds(fs, savedChunks, p, s)} | FileHolds(fs, savedChunks, p, s)
      ensures FileHolds(c.fs, c.chunks, p, Splice(s, off, data))
    {
      SplicedHolds(fs, savedChunks, c.chunks, p, s, off, data, c.fs[p]);
    }
    r := Ok(());
  }

  // ------------------------------------------------------------------ truncation

  /** Chunk `idx` of `p`, decoded and checked against its key. */
  method ChunkBytes(c: Connection, cache: ChunkCache?, p: Path, idx: nat) returns (r: Result<Bytes>)
    requires cache != null ==> cache.Valid()
    modifies cache
    ensures cache != null ==> cache.Valid()
    ensures r.Ok? <==> old(LoadsAt(c, cache, p, idx))
    ensures r.Ok? ==> r == Ok(c.chunks[Slot(Live, p, idx)].preimage)
    ensures Core(c.chunks, c.blobs, c.dicts) ==> (r.Ok? <==> Slot(Live, p, idx) in c.chunks)
  {
    if Slot(Live, p, idx) !in c.chunks { return Err(Corrupt); }
    if Core(c.chunks, c.blobs, c.dicts) { CoreLoads(c, cache, p, idx); }
    r := ChunkByKey(c, cache, c.chunks[Slot(Live, p, idx)]);
  }

  ghost predicate TailCutAt(a: Chunks, b: Chunks, p: Path, keep: nat, s: Slot) {
    if s.owner == Live && s.path == p && s.idx >= keep then s !in b
    else (s in b <==> s in a) && (s in b ==> b[s] == a[s])
  }

  /** `b` is `a` without the chunk rows of `p` from `keep` on. */
  ghost predicate TailCut(a: Chunks, b: Chunks, p: Path, keep: nat) {
    forall s {:trigger TailCutAt(a, b, p, keep, s)} :: TailCutAt(a, b, p, keep, s)
  }

  method CutTail(c: Connection, p: Path, keep: nat)
    modifies c`chunks, c`blobs
    ensures BlobsKept(c)
    ensures TailCut(old(c.chunks), c.chunks, p, keep)
  {
    var gone := set s | s in c.chunks && s.owner == Live && s.path == p && s.idx >= keep;
    c.DeleteSlots(gone);
    forall s ensures TailCutAt(old(c.chunks), c.chunks, p, keep, s) {}
  }

  /** The pieces of a content cut to `n` bytes. */
  lemma CutPieces(s: Bytes, n: nat, i: nat)
    requires n <= |s|
    ensures (i + 1) * CHUNK_SIZE <= n ==> Piece(s[..n], i) == Piece(s, i)
    ensures i * CHUNK_SIZE <= n < (i + 1) * CHUNK_SIZE ==>
      n - i * CHUNK_SIZE <= |Piece(s, i)| && Piece(s[..n], i) == Piece(s, i)[..n - i * CHUNK_SIZE]
  {
    var a, b := i * CHUNK_SIZE, Min((i + 1) * CHUNK_SIZE, |s|);
    if (i + 1) * CHUNK_SIZE <= n {
      SliceOfSlice(s, 0, n, a, b);
      assert s[..n] == s[0..n];
    } else if a <= n {
      SliceOfSlice(s, 0, n, a, n);
      SliceOfSlice(s, a, b, 0, n - a);
      assert s[..n] == s[0..n];
    }
  }

  /** The rows after a cut, the last kept one trimmed when the cut is inside it. */
  lemma CutHolds(fs: Files, a: Chunks, m: Chunks, b: Chunks, p: Path, s: Bytes, n: nat, row: Row)
    requires FileHolds(fs, a, p, s) && n < |s| && TailCut(a, m, p, NumChunks(n))
    requires row.kind == File && row.size == n
    requires if n % CHUNK_SIZE == 0 then b == m
      else b == m[Slot(Live, p, NumChunks(n) - 1) := Sha256(Piece(s, NumChunks(n) - 1)[..n % CHUNK_SIZE])]
    ensures FileHolds(fs[p := row], b, p, s[..n])
  {
    forall i: nat ensures HoldsAt(b, p, s[..n], i) {
      assert HoldsAt(a, p, s, i);
      assert TailCutAt(a, m, p, NumChunks(n), Slot(Live, p, i));
      CutPieces(s, n, i);
    }
  }

  lemma CutOthers(a: Chunks, m: Chunks, b: Chunks, p: Path, n: nat, last: nat, k: Key)
    requires TailCut(a, m, p, n) && (b == m || b == m[Slot(Live, p, last) := k])
    ensures Others(a, b, p)
  {
    forall s ensures OthersAt(a, b, p, s) { assert TailCutAt(a, m, p, n, s); }
  }

  /** Drop the chunks past the new end and trim the last kept one. */
  method CutChunks(c: Connection, cache: ChunkCache?, p: Path, n: nat) returns (ok: bool)
    requires Core(c.chunks, c.blobs, c.dicts) && (cache != null ==> cache.Valid())
    requires p in c.fs && n < c.fs[p].size
    modifies c`chunks, c`blobs, cache
    ensures cache != null ==> cache.Valid()
    ensures Core(c.chunks, c.blobs, c.dicts) && Idle(c.chunks, c.blobs) <= old(Idle(c.chunks, c.blobs))
    ensures Others(old(c.chunks), c.chunks, p)
    ensures forall s {:trigger FileHolds(c.fs, old(c.chunks), p, s)} :: FileHolds(c.fs, old(c.chunks), p, s) ==>
      ok && forall row: Row {:trigger c.fs[p := row]} :: row.kind == File && row.size == n ==>
        FileHolds(c.fs[p := row], c.chunks, p, s[..n])
  {
    var keep := NumChunks(n);
    CutTail(c, p, keep);
    ghost var m := c.chunks;
    CutOthers(old(c.chunks), m, c.chunks, p, keep, 0, Sha256([]));
    ok := true;
    if n % CHUNK_SIZE != 0 {
      var last := keep - 1;
      var piece := ChunkBytes(c, cache, p, last);
      forall s {:trigger FileHolds(c.fs, old(c.chunks), p, s)} | FileHolds(c.fs, old(c.chunks), p, s)
        ensures piece == Ok(Piece(s, last)) && n % CHUNK_SIZE <= |Piece(s, last)|
      {
        assert HoldsAt(old(c.chunks), p, s, last);
        assert TailCutAt(old(c.chunks), m, p, keep, Slot(Live, p, last));
        CutPieces(s, n, last);
      }
      if piece.Err? { return false; }
      var cut := piece.value[..Min(n % CHUNK_SIZE, |piece.value|)];
      PutChunk(c, cache, p, last, cut);
      CutOthers(old(c.chunks), m, c.chunks, p, keep, last, Sha256(cut));
    }
    forall s, row: Row {:trigger FileHolds(c.fs, old(c.chunks), p, s), c.fs[p := row]}
      | FileHolds(c.fs, old(c.chunks), p, s) && row.kind == File && row.size == n
      ensures FileHolds(c.fs[p := row], c.chunks, p, s[..n])
    {
      CutHolds(c.fs, old(c.chunks), m, c.chunks, p, s, n, row);
    }
  }

  /** Cut or zero-extend a file; growing is a ranged write of the zero tail. */
  method TruncateRangeDeferred(c: Connection, cache: ChunkCache?, p: Path, n: nat, mtime: int) returns (r: Result<()>)
    requires Sound(c) && (cache != null ==> cache.Valid())
    modifies c`fs, c`chunks, c`blobs, c`dirty, c`logical, cache
    ensures Sound(c) && (cache != null ==> cache.Valid())
    ensures p !in old(c.fs) ==> r == Err(NotFound)
    ensures p in old(c.fs) && old(c.fs)[p].kind != File ==> r == Err(NotAFile)
    ensures r.Err? || n == old(c.fs)[p].size ==>
      SameTables(c)
    ensures r.Ok? && n != old(c.fs)[p].size ==>
      && c.fs == old(c.fs)[p := old(c.fs)[p].(size := n, mtime := mtime)]
      && c.dirty == old(c.dirty) + {p} && Others(old(c.chunks), c.chunks, p)
    ensures forall s {:trigger FileHolds(old(c.fs), old(c.chunks), p, s)} ::
      FileHolds(old(c.fs), old(c.chunks), p, s) ==>
        var row := old(c.fs)[p].(size := n, mtime := mtime);
        var writable := n < |s| || Writable(old(c.fs), p, |s|);
        && (r.Ok? <==> n == |s| || (writable && !Refused(c.rules, old(c.fs), old(c.logical), p, row)))
        && (r.Ok? ==> FileHolds(c.fs, c.chunks, p, Resize(s, n)))
  {
    if p !in c.fs { return Err(NotFound); }
    if c.fs[p].kind != File { return Err(NotAFile); }
    if n == c.fs[p].size {
      forall s {:trigger FileHolds(c.fs, c.chunks, p, s)} | FileHolds(c.fs, c.chunks, p, s) ensures Resize(s, n) == s {}
      return Ok(());
    }
    if n > c.fs[p].size {
      forall s {:trigger FileHolds(c.fs, c.chunks, p, s)} | FileHolds(c.fs, c.chunks, p, s)
        ensures Splice(s, c.fs[p].size, Zeros(n - c.fs[p].size)) == Resize(s, n)
      {
        ResizeIsSplice(s, n);
      }
      r := WriteRangeDeferred(c, cache, p, c.fs[p].size, Zeros(n - c.fs[p].size), mtime);
      return;
    }
    r := Shrink(c, cache, p, n, mtime);
  }

  method Shrink(c: Connection, cache: ChunkCache?, p: Path, n: nat, mtime: int) returns (r: Result<()>)
    requires Sound(c) && (cache != null ==> cache.Valid())
    requires p in c.fs && c.fs[p].kind == File && n < c.fs[p].size
    modifies c`fs, c`chunks, c`blobs, c`dirty, c`logical, cache
    ensures Sound(c) && (cache != null ==> cache.Valid())
    ensures r.Err? ==>
      SameTables(c)
    ensures r.Ok? ==>
      && c.fs == old(c.fs)[p := old(c.fs)[p].(size := n, mtime := mtime)]
      && c.dirty == old(c.dirty) + {p} && Others(old(c.chunks), c.chunks, p)
    ensures forall s {:trigger FileHolds(old(c.fs), old(c.chunks), p, s)} ::
      FileHolds(old(c.fs), old(c.chunks), p, s) ==>
        && (r.Ok? <==> !Refused(c.rules, old(c.fs), old(c.logical), p, old(c.fs)[p].(size := n, mtime := mtime)))
        && (r.Ok? ==> FileHolds(c.fs, c.chunks, p, Resize(s, n)))
  {
    var savedChunks, savedBlobs := c.chunks, c.blobs;
    ghost var fs := c.fs;
    var cut := CutChunks(c, cache, p, n);
    var ok := false;
    if cut { ok := MarkDirty(c, p, n, mtime); }
    if !ok {
      c.chunks, c.blobs := savedChunks, savedBlobs;
      return Err(if cut then Refusal else Corrupt);
    }
    OthersRooted(fs, savedChunks, c.chunks, c.snaps, c.undos, p, c.fs[p]);
    r := Ok(());
  }
}
