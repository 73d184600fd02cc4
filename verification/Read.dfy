/** Ranged reads of a live file, with or without a cache of decoded chunks. */
module Read {
  import opened Tables
  import opened Chunking
  import opened Trees
  import opened Connections

  datatype Error = NotFound | NotAFile | Corrupt | Refusal
  datatype Result<+T> = Ok(value: T) | Err(error: Error)

  // ------------------------------------------------------------------ what a file holds

  /** Chunk row `i` of `p` is what a file with content `s` has there. */
  ghost predicate HoldsAt(chunks: Chunks, p: Path, s: Bytes, i: nat) {
    && (Slot(Live, p, i) in chunks <==> i < NumChunks(|s|))
    && (i < NumChunks(|s|) ==> chunks[Slot(Live, p, i)] == Sha256(Piece(s, i)))
  }

  /** The rows say `p` is a regular file with content `s`, in canonical layout. */
  ghost predicate FileHolds(fs: Files, chunks: Chunks, p: Path, s: Bytes) {
    && p in fs && fs[p].kind == File && fs[p].size == |s|
    && forall i: nat {:trigger HoldsAt(chunks, p, s, i)} :: HoldsAt(chunks, p, s, i)
  }

  lemma FileHoldsList(fs: Files, chunks: Chunks, p: Path, s: Bytes)
    requires p in fs && fs[p].kind == File && fs[p].size == |s|
    ensures FileHolds(fs, chunks, p, s) <==> List(chunks, Live, p) == ListOf(s)
  {
    var l, m := List(chunks, Live, p), ListOf(s);
    if FileHolds(fs, chunks, p, s) {
      forall i: nat ensures (i in l <==> i in m) && (i in l ==> l[i] == m[i]) {
        assert HoldsAt(chunks, p, s, i);
      }
    }
    if l == m {
      forall i: nat ensures HoldsAt(chunks, p, s, i) {
        assert i in l <==> i in m;
      }
    }
  }

  /** A live file is canonical exactly when it holds its content. */
  lemma CanonicalHolds(fs: Files, chunks: Chunks, p: Path)
    requires p in fs && fs[p].kind == File
    ensures var e := Entry(fs[p], List(chunks, Live, p)); Canonical(e) <==> FileHolds(fs, chunks, p, Content(e))
  {
    var e := Entry(fs[p], List(chunks, Live, p));
    if |Content(e)| == e.row.size { FileHoldsList(fs, chunks, p, Content(e)); }
  }

  lemma HoldsOne(fs: Files, chunks: Chunks, p: Path, s: Bytes, t: Bytes)
    requires FileHolds(fs, chunks, p, s) && FileHolds(fs, chunks, p, t)
    ensures s == t
  {
    FileHoldsList(fs, chunks, p, s);
    FileHoldsList(fs, chunks, p, t);
    ListDenotes(s);
    ListDenotes(t);
  }

  /** The chunk rows that a read of `off, len` needs are those of a file with content `s`. */
  ghost predicate RangeHolds(fs: Files, chunks: Chunks, p: Path, s: Bytes, off: nat, len: nat) {
    && p in fs && fs[p].kind == File && fs[p].size == |s|
    && forall i: nat {:trigger HoldsAt(chunks, p, s, i)} ::
      off / CHUNK_SIZE <= i && i * CHUNK_SIZE < off + len ==> HoldsAt(chunks, p, s, i)
  }

  /** The bytes asked for, clamped to the file. */
  function Slice(s: Bytes, off: nat, len: nat): (r: Bytes)
    ensures |r| == if off >= |s| then 0 else if len <= |s| - off then len else |s| - off
    ensures forall k :: 0 <= k < |r| ==> r[k] == s[off + k]
  {
    s[Min(off, |s|)..Min(Min(off, |s|) + len, |s|)]
  }

  // ------------------------------------------------------------------ one chunk

  ghost predicate CachedAt(entries: map<Key, Bytes>, k: Key) {
    k in entries ==> Sha256(entries[k]) == k
  }

  /** Decoded chunks by key. An entry is put in once and never invalidated. */
  class ChunkCache {
    var entries: map<Key, Bytes>

    ghost predicate Valid()
      reads this
    {
      forall k {:trigger CachedAt(entries, k)} :: CachedAt(entries, k)
    }

    method Put(key: Key, piece: Bytes)
      requires Valid() && Sha256(piece) == key
      modifies this
      ensures Valid() && entries == old(entries)[key := piece]
    {
      ghost var before := entries;
      entries := entries[key := piece];
      forall k ensures CachedAt(entries, k) { assert CachedAt(before, k); }
    }
  }

  /** The block `k` names is stored and decodes to the content of the key. */
  ghost predicate Stored(c: Connection, k: Key)
    reads c`blobs, c`dicts
  {
    k in c.blobs && Decode(c.dicts, c.blobs[k]) == Some(k.preimage)
  }

  /** The content of `k` can be had, from the cache or from its block. */
  ghost predicate Loads(c: Connection, cache: ChunkCache?, k: Key)
    reads c`blobs, c`dicts, cache
  {
    Stored(c, k) || (cache != null && k in cache.entries)
  }

  /** The chunk `key` names, from the cache or decoded and checked against its key. */
  method ChunkByKey(c: Connection, cache: ChunkCache?, key: Key) returns (r: Result<Bytes>)
    requires cache != null ==> cache.Valid()
    modifies cache
    ensures cache != null ==> cache.Valid()
    ensures r.Ok? ==> r.value == key.preimage
    ensures r.Ok? <==> old(Loads(c, cache, key))
    ensures forall k {:trigger Loads(c, cache, k)} :: Loads(c, cache, k) <==> old(Loads(c, cache, k))
  {
    if cache != null && key in cache.entries {
      assert CachedAt(cache.entries, key);
      return Ok(cache.entries[key]);
    }
    if key !in c.blobs { return Err(Corrupt); }
    var piece := Decode(c.dicts, c.blobs[key]);
    if piece.None? || Sha256(piece.value) != key { return Err(Corrupt); }
    if cache != null { cache.Put(key, piece.value); }
    r := Ok(piece.value);
  }

  // ------------------------------------------------------------------ a range

  lemma SliceOfSlice(s: Bytes, a: nat, b: nat, x: nat, y: nat)
    requires a <= b <= |s| && x <= y <= b - a
    ensures s[a..b][x..y] == s[a + x..a + y]
  {
    var t := s[a..b];
    forall j | 0 <= j < y - x ensures t[x..y][j] == s[a + x..a + y][j] {}
  }

  /** What the loop has read after the chunks below `i`. */
  lemma SliceGrows(s: Bytes, start: nat, end: nat, i: nat)
    requires start < end <= |s| && start / CHUNK_SIZE <= i <= (end - 1) / CHUNK_SIZE
    ensures var base := i * CHUNK_SIZE;
      var from := Min(Max(start - base, 0), |Piece(s, i)|);
      var to := Min(end - base, |Piece(s, i)|);
      && 0 <= from <= to && Max(start, base) == base + from && base + to == Min(base + CHUNK_SIZE, end)
      && s[start..Max(start, base)] + Piece(s, i)[from..to] == s[start..Min(base + CHUNK_SIZE, end)]
  {
    var base := i * CHUNK_SIZE;
    var from, to := Min(Max(start - base, 0), |Piece(s, i)|), Min(end - base, |Piece(s, i)|);
    assert base < end && start < base + CHUNK_SIZE;
    assert |Piece(s, i)| == Min(base + CHUNK_SIZE, |s|) - base;
    SliceOfSlice(s, base, Min(base + CHUNK_SIZE, |s|), from, to);
  }

  /** How far a read of `start..end` has come once the chunks below `i` are read. */
  function Reached(start: nat, end: nat, i: nat): nat {
    Min(Max(start, i * CHUNK_SIZE), end)
  }

  ghost predicate LoadsAt(c: Connection, cache: ChunkCache?, p: Path, i: nat)
    reads c`chunks, c`blobs, c`dicts, cache
  {
    Slot(Live, p, i) in c.chunks && Loads(c, cache, c.chunks[Slot(Live, p, i)])
  }

  /** Every chunk the bytes `start..end` of `p` overlap has a row, and the content that names can be had. */
  ghost predicate AllLoad(c: Connection, cache: ChunkCache?, p: Path, start: nat, end: nat)
    reads c`chunks, c`blobs, c`dicts, cache
  {
    start < end ==>
      forall i: nat {:trigger LoadsAt(c, cache, p, i)} ::
        start / CHUNK_SIZE <= i <= (end - 1) / CHUNK_SIZE ==> LoadsAt(c, cache, p, i)
  }

  lemma CoreLoads(c: Connection, cache: ChunkCache?, p: Path, i: nat)
    requires Core(c.chunks, c.blobs, c.dicts) && Slot(Live, p, i) in c.chunks
    ensures LoadsAt(c, cache, p, i)
  {
    assert HasBlob(c.chunks, c.blobs, Slot(Live, p, i));
    assert DecodesAt(c.dicts, c.blobs, c.chunks[Slot(Live, p, i)]);
  }

  /** One step of a ranged read: chunk `i`, cut to the window, appended to `out`. */
  method AppendChunk(c: Connection, cache: ChunkCache?, p: Path, start: nat, end: nat, i: nat,
                     out: Bytes) returns (r: Result<Bytes>)
    requires cache != null ==> cache.Valid()
    requires start < end && start / CHUNK_SIZE <= i <= (end - 1) / CHUNK_SIZE
    modifies cache
    ensures cache != null ==> cache.Valid()
    ensures r.Ok? <==> old(LoadsAt(c, cache, p, i))
    ensures r.Err? ==> r == Err(Corrupt)
    ensures forall k {:trigger Loads(c, cache, k)} :: Loads(c, cache, k) <==> old(Loads(c, cache, k))
    ensures forall s {:trigger HoldsAt(c.chunks, p, s, i)} ::
      r.Ok? && end <= |s| && HoldsAt(c.chunks, p, s, i) && out == s[start..Reached(start, end, i)] ==>
        r == Ok(s[start..Reached(start, end, i + 1)])
  {
    var slot := Slot(Live, p, i);
    if slot !in c.chunks { return Err(Corrupt); }
    var piece := ChunkByKey(c, cache, c.chunks[slot]);
    if piece.Err? { return Err(Corrupt); }
    var base := i * CHUNK_SIZE;
    var from := Min(Max(start - base, 0), |piece.value|);
    var to := Min(end - base, |piece.value|);
    r := Ok(if from < to then out + piece.value[from..to] else out);
    forall s {:trigger HoldsAt(c.chunks, p, s, i)}
      | end <= |s| && HoldsAt(c.chunks, p, s, i) && out == s[start..Reached(start, end, i)]
      ensures r.value == s[start..Reached(start, end, i + 1)]
    {
      SliceGrows(s, start, end, i);
    }
  }

  /** The chunks the window overlaps, joined, each cut to the window. */
  method ReadChunks(c: Connection, cache: ChunkCache?, p: Path, start: nat, end: nat) returns (r: Result<Bytes>)
    requires (cache != null ==> cache.Valid()) && start < end
    modifies cache
    ensures cache != null ==> cache.Valid()
    ensures r.Ok? <==> old(AllLoad(c, cache, p, start, end))
    ensures r.Err? ==> r == Err(Corrupt)
    ensures forall s {:trigger RangeHolds(c.fs, c.chunks, p, s, start, end - start)} ::
      r.Ok? && end <= |s| && RangeHolds(c.fs, c.chunks, p, s, start, end - start) ==> r == Ok(s[start..end])
  {
    var i, last := start / CHUNK_SIZE, (end - 1) / CHUNK_SIZE;
    r := Ok([]);
    assert Reached(start, end, i) == start;
    forall s {:trigger RangeHolds(c.fs, c.chunks, p, s, start, end - start)}
      | end <= |s|
      ensures s[start..start] == [] {}
    while i <= last
      invariant start / CHUNK_SIZE <= i <= last + 1 && r.Ok?
      invariant cache != null ==> cache.Valid()
      invariant forall j: nat {:trigger old(LoadsAt(c, cache, p, j))} ::
        start / CHUNK_SIZE <= j < i ==> old(LoadsAt(c, cache, p, j))
      invariant forall k {:trigger Loads(c, cache, k)} :: Loads(c, cache, k) <==> old(Loads(c, cache, k))
      invariant forall s {:trigger RangeHolds(c.fs, c.chunks, p, s, start, end - start)} ::
        end <= |s| && RangeHolds(c.fs, c.chunks, p, s, start, end - start) ==> r == Ok(s[start..Reached(start, end, i)])
      decreases last + 1 - i
    {
      forall s {:trigger RangeHolds(c.fs, c.chunks, p, s, start, end - start)}
        | end <= |s| && RangeHolds(c.fs, c.chunks, p, s, start, end - start)
        ensures HoldsAt(c.chunks, p, s, i)
      {
      }
      r := AppendChunk(c, cache, p, start, end, i, r.value);
      if r.Err? { assert !old(LoadsAt(c, cache, p, i)); return; }
      i := i + 1;
    }
  }

  lemma SubRange(fs: Files, chunks: Chunks, p: Path, s: Bytes, off: nat, len: nat, less: nat)
    requires RangeHolds(fs, chunks, p, s, off, len) && less <= len
    ensures RangeHolds(fs, chunks, p, s, off, less)
  {
  }

  /** A file that holds `s` has what any ranged read of it needs. */
  lemma WholeFileRange(fs: Files, chunks: Chunks, p: Path, s: Bytes, off: nat, len: nat)
    requires FileHolds(fs, chunks, p, s)
    ensures RangeHolds(fs, chunks, p, s, off, len)
  {
    forall i: nat | off / CHUNK_SIZE <= i && i * CHUNK_SIZE < off + len ensures HoldsAt(chunks, p, s, i) {}
  }

  /** The bytes `off, len` of a regular file, clamped to its size. Only the chunks the range overlaps are
      needed. It fails exactly when one of them has no row, or has no block that decodes to what the row names
      and is not in the cache; it never returns wrong or short bytes. */
  method ReadRange(c: Connection, cache: ChunkCache?, p: Path, off: nat, len: nat) returns (r: Result<Bytes>)
    requires cache != null ==> cache.Valid()
    modifies cache
    ensures cache != null ==> cache.Valid()
    ensures p !in c.fs ==> r == Err(NotFound)
    ensures p in c.fs && c.fs[p].kind != File ==> r == Err(NotAFile)
    ensures p in c.fs && c.fs[p].kind == File && c.fs[p].hash.None? ==> r == Err(Corrupt)
    ensures p in c.fs && c.fs[p].kind == File && c.fs[p].hash.Some? ==>
      var start := Min(off, c.fs[p].size);
      && (r.Ok? <==> old(AllLoad(c, cache, p, start, Min(start + len, c.fs[p].size))))
      && (forall s {:trigger RangeHolds(c.fs, c.chunks, p, s, off, len)} ::
        r.Ok? && RangeHolds(c.fs, c.chunks, p, s, off, len) ==> r == Ok(Slice(s, off, len)))
    ensures Core(c.chunks, c.blobs, c.dicts) && p in c.fs && c.fs[p].hash.Some? ==>
      && (forall s {:trigger RangeHolds(c.fs, c.chunks, p, s, off, len)} ::
        RangeHolds(c.fs, c.chunks, p, s, off, len) ==> r == Ok(Slice(s, off, len)))
      && (forall s {:trigger FileHolds(c.fs, c.chunks, p, s)} ::
        FileHolds(c.fs, c.chunks, p, s) ==> r == Ok(Slice(s, off, len)))
  {
    forall s {:trigger FileHolds(c.fs, c.chunks, p, s)} | FileHolds(c.fs, c.chunks, p, s)
      ensures RangeHolds(c.fs, c.chunks, p, s, off, len)
    {
      WholeFileRange(c.fs, c.chunks, p, s, off, len);
    }
    if p !in c.fs { return Err(NotFound); }
    if c.fs[p].kind != File { return Err(NotAFile); }
    if c.fs[p].hash.None? { return Err(Corrupt); }
    var size := c.fs[p].size;
    var start := Min(off, size);
    var end := Min(start + len, size);
    forall s {:trigger RangeHolds(c.fs, c.chunks, p, s, off, len)}
      | RangeHolds(c.fs, c.chunks, p, s, off, len)
      ensures Slice(s, off, len) == s[start..end] && end <= |s|
      ensures start < end ==> RangeHolds(c.fs, c.chunks, p, s, start, end - start)
      ensures Core(c.chunks, c.blobs, c.dicts) ==> AllLoad(c, cache, p, start, end)
    {
      if start < end { SubRange(c.fs, c.chunks, p, s, off, len, end - start); }
      if start < end && Core(c.chunks, c.blobs, c.dicts) { RangeLoads(c, cache, p, s, start, end); }
    }
    if start == end { return Ok([]); }
    r := ReadChunks(c, cache, p, start, end);
  }

  lemma RangeLoads(c: Connection, cache: ChunkCache?, p: Path, s: Bytes, start: nat, end: nat)
    requires Core(c.chunks, c.blobs, c.dicts)
    requires start < end <= |s| && RangeHolds(c.fs, c.chunks, p, s, start, end - start)
    ensures AllLoad(c, cache, p, start, end)
  {
    forall i: nat | start / CHUNK_SIZE <= i <= (end - 1) / CHUNK_SIZE ensures LoadsAt(c, cache, p, i) {
      assert HoldsAt(c.chunks, p, s, i);
      CoreLoads(c, cache, p, i);
    }
  }
}
