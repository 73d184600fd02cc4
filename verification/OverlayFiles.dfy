/** Reading a file through the overlay: chunk by chunk from the layer that holds the chunk. */
module OverlayFiles {
  import opened Tables
  import opened Chunking
  import opened Connections
  import opened Read
  import opened Density
  import opened OverlayNames
  import opened Overlays

  // ------------------------------------------------------------------ what a layered file holds

  /** Chunk `i` of a Delta file with content `s`: the Delta's own row if it has one, the Base's otherwise. The
      Delta holds no chunk past the end. */
  ghost predicate LayerAt(b: Base, chunks: Chunks, p: Path, s: Bytes, i: nat) {
    var slot := Slot(Live, p, i);
    if i >= NumChunks(|s|) then slot !in chunks
    else if slot in chunks then chunks[slot] == Sha256(Piece(s, i))
    else slot in b.chunks && b.chunks[slot] == Sha256(Piece(s, i))
  }

  ghost predicate LayeredHolds(b: Base, fs: Files, chunks: Chunks, p: Path, s: Bytes) {
    && p in fs && fs[p].kind == File && fs[p].size == |s|
    && forall i: nat {:trigger LayerAt(b, chunks, p, s, i)} :: LayerAt(b, chunks, p, s, i)
  }

  /** The overlay shows a regular file with content `s` at `p`. */
  ghost predicate ViewHolds(b: Base, fs: Files, chunks: Chunks, white: set<Path>, p: Path, s: Bytes) {
    match LookupFile(b.fs, fs, white, p)
    case InDelta => LayeredHolds(b, fs, chunks, p, s)
    case InBase => FileHolds(b.fs, b.chunks, p, s)
    case Missing => false
  }

  /** A Base that was sound when it was closed: its chunk rows have their blobs, and these decode. */
  ghost predicate BaseOk(b: Base) {
    Core(b.chunks, b.blobs, b.dicts)
  }

  // ------------------------------------------------------------------ one chunk

  /** The block `key` names, decoded with its own database's dictionaries and checked against the key. */
  method Block(blobs: Blobs, dicts: Dicts, key: Key) returns (r: Result<Bytes>)
    ensures r.Ok? ==> r.value == key.preimage
    ensures key in blobs && Decode(dicts, blobs[key]) == Some(key.preimage) ==> r.Ok?
    ensures key !in blobs ==> r.Err?
  {
    if key !in blobs { return Err(Corrupt); }
    var piece := Decode(dicts, blobs[key]);
    if piece.None? || Sha256(piece.value) != key { return Err(Corrupt); }
    r := Ok(piece.value);
  }

  /** The chunk row a read of chunk `i` follows, `None` when no layer has one. */
  function LayerKey(b: Base, chunks: Chunks, inDelta: bool, p: Path, i: nat): Option<Key> {
    var slot := Slot(Live, p, i);
    if inDelta && slot in chunks then Some(chunks[slot])
    else if slot in b.chunks then Some(b.chunks[slot]) else None
  }

  /** One chunk of a file whose row is in the given layer. A Delta file falls back to Base for chunks the
      Delta never touched. */
  method ReadChunkLayered(o: Overlay, inDelta: bool, p: Path, i: nat) returns (r: Result<Bytes>)
    requires BaseOk(o.base) && BlobsDecode(o.delta.dicts, o.delta.blobs)
    ensures var k := LayerKey(o.base, o.delta.chunks, inDelta, p, i);
      && (k.Some? && r.Ok? ==> r.value == k.value.preimage)
      && (k.None? ==> if inDelta then r == Ok([]) else r.Err?)
      && (k.Some? && !(inDelta && Slot(Live, p, i) in o.delta.chunks) ==> r.Ok?)
      && (inDelta && Slot(Live, p, i) in o.delta.chunks ==> (r.Ok? <==> k.value in o.delta.blobs))
  {
    var slot := Slot(Live, p, i);
    if inDelta && slot in o.delta.chunks {
      assert DecodesAt(o.delta.dicts, o.delta.blobs, o.delta.chunks[slot]);
      r := Block(o.delta.blobs, o.delta.dicts, o.delta.chunks[slot]);
    } else if slot in o.base.chunks {
      assert HasBlob(o.base.chunks, o.base.blobs, slot);
      assert DecodesAt(o.base.dicts, o.base.blobs, o.base.chunks[slot]);
      r := Block(o.base.blobs, o.base.dicts, o.base.chunks[slot]);
    } else {
      r := if inDelta then Ok([]) else Err(Corrupt);
    }
  }

  /** The chunk rows of the file at `p` that the overlay shows are those of content `s`. */
  ghost predicate PieceKeyAt(b: Base, chunks: Chunks, inDelta: bool, p: Path, s: Bytes, i: nat) {
    i < NumChunks(|s|) ==> LayerKey(b, chunks, inDelta, p, i) == Some(Sha256(Piece(s, i)))
  }

  lemma ViewKeys(b: Base, fs: Files, chunks: Chunks, white: set<Path>, p: Path, s: Bytes, i: nat)
    requires ViewHolds(b, fs, chunks, white, p, s)
    ensures PieceKeyAt(b, chunks, LookupFile(b.fs, fs, white, p) == InDelta, p, s, i)
  {
    if LookupFile(b.fs, fs, white, p) == InDelta {
      assert LayerAt(b, chunks, p, s, i);
    } else {
      assert HoldsAt(b.chunks, p, s, i);
    }
  }

  // ------------------------------------------------------------------ a range

  /** Chunk `i` can be read: a Delta chunk row has its block. A sound Base has all of its own. */
  ghost predicate ThereAt(o: Overlay, inDelta: bool, p: Path, i: nat)
    reads o, o.delta
  {
    inDelta ==> HasBlob(o.delta.chunks, o.delta.blobs, Slot(Live, p, i))
  }

  /** Every chunk the bytes `start..end` overlap can be read. */
  ghost predicate There(o: Overlay, inDelta: bool, p: Path, start: nat, end: nat)
    reads o, o.delta
  {
    start < end ==>
      forall i: nat {:trigger ThereAt(o, inDelta, p, i)} ::
        start / CHUNK_SIZE <= i <= (end - 1) / CHUNK_SIZE ==> ThereAt(o, inDelta, p, i)
  }

  /** With exact counts everything can be read. */
  lemma SoundIsThere(o: Overlay, inDelta: bool, p: Path, start: nat, end: nat)
    requires RefOk(o.delta.chunks, o.delta.blobs)
    ensures There(o, inDelta, p, start, end)
  {
    forall i: nat ensures ThereAt(o, inDelta, p, i) {}
  }

  /** One step of a layered ranged read. */
  method AppendLayered(o: Overlay, inDelta: bool, p: Path, start: nat, end: nat, i: nat, out: Bytes)
    returns (r: Result<Bytes>)
    requires BaseOk(o.base) && BlobsDecode(o.delta.dicts, o.delta.blobs)
    requires start < end && start / CHUNK_SIZE <= i <= (end - 1) / CHUNK_SIZE
    ensures forall s {:trigger PieceKeyAt(o.base, o.delta.chunks, inDelta, p, s, i)} ::
      end <= |s| && PieceKeyAt(o.base, o.delta.chunks, inDelta, p, s, i) && out == s[start..Reached(start, end, i)] ==>
        r == if ThereAt(o, inDelta, p, i) then Ok(s[start..Reached(start, end, i + 1)]) else Err(Corrupt)
  {
    var piece := ReadChunkLayered(o, inDelta, p, i);
    if piece.Err? { return Err(Corrupt); }
    var base := i * CHUNK_SIZE;
    var from := Min(Max(start - base, 0), |piece.value|);
    var to := Min(end - base, |piece.value|);
    r := Ok(if from < to then out + piece.value[from..to] else out);
    forall s {:trigger PieceKeyAt(o.base, o.delta.chunks, inDelta, p, s, i)}
      | end <= |s| && PieceKeyAt(o.base, o.delta.chunks, inDelta, p, s, i) && out == s[start..Reached(start, end, i)]
      ensures r.value == s[start..Reached(start, end, i + 1)]
    {
      SliceGrows(s, start, end, i);
    }
  }

  ghost predicate KeysHold(b: Base, chunks: Chunks, inDelta: bool, p: Path, s: Bytes) {
    forall i: nat {:trigger PieceKeyAt(b, chunks, inDelta, p, s, i)} :: PieceKeyAt(b, chunks, inDelta, p, s, i)
  }

  lemma ViewKeysHold(b: Base, fs: Files, chunks: Chunks, white: set<Path>, p: Path, s: Bytes)
    requires ViewHolds(b, fs, chunks, white, p, s)
    ensures KeysHold(b, chunks, LookupFile(b.fs, fs, white, p) == InDelta, p, s)
  {
    var inDelta := LookupFile(b.fs, fs, white, p) == InDelta;
    forall i: nat ensures PieceKeyAt(b, chunks, inDelta, p, s, i) { ViewKeys(b, fs, chunks, white, p, s, i); }
  }

  /** The chunks the window overlaps, joined, each cut to the window. */
  method ReadWindow(o: Overlay, inDelta: bool, p: Path, start: nat, end: nat) returns (r: Result<Bytes>)
    requires BaseOk(o.base) && BlobsDecode(o.delta.dicts, o.delta.blobs) && start < end
    ensures forall s {:trigger KeysHold(o.base, o.delta.chunks, inDelta, p, s)} ::
      end <= |s| && KeysHold(o.base, o.delta.chunks, inDelta, p, s) ==>
        r == if There(o, inDelta, p, start, end) then Ok(s[start..end]) else Err(Corrupt)
  {
    var i, last := start / CHUNK_SIZE, (end - 1) / CHUNK_SIZE;
    r := Ok([]);
    assert Reached(start, end, i) == start;
    forall s {:trigger KeysHold(o.base, o.delta.chunks, inDelta, p, s)} | end <= |s| ensures s[start..start] == [] {}
    while i <= last
      invariant start / CHUNK_SIZE <= i <= last + 1 && r.Ok?
      invariant forall s {:trigger KeysHold(o.base, o.delta.chunks, inDelta, p, s)} ::
        end <= |s| && KeysHold(o.base, o.delta.chunks, inDelta, p, s) ==>
          && r == Ok(s[start..Reached(start, end, i)])
          && forall j: nat {:trigger ThereAt(o, inDelta, p, j)} ::
            start / CHUNK_SIZE <= j < i ==> ThereAt(o, inDelta, p, j)
      decreases last + 1 - i
    {
      forall s {:trigger KeysHold(o.base, o.delta.chunks, inDelta, p, s)}
        | KeysHold(o.base, o.delta.chunks, inDelta, p, s)
        ensures PieceKeyAt(o.base, o.delta.chunks, inDelta, p, s, i)
      {
      }
      r := AppendLayered(o, inDelta, p, start, end, i, r.value);
      if r.Err? { return Err(Corrupt); }
      i := i + 1;
    }
  }

  /** A byte range of the file the overlay shows at `p`, clamped to its size. What it returns is never wrong or
      short, also when a block of the Delta is missing; it fails exactly when a chunk of the range has none. */
  method ReadRangeLayered(o: Overlay, p: Path, off: nat, len: nat) returns (r: Result<Bytes>)
    requires BaseOk(o.base) && BlobsDecode(o.delta.dicts, o.delta.blobs)
    ensures LookupFile(o.base.fs, o.delta.fs, o.white, p) == Missing ==> r == Err(NotFound)
    ensures forall s {:trigger ViewHolds(o.base, o.delta.fs, o.delta.chunks, o.white, p, s)} ::
      ViewHolds(o.base, o.delta.fs, o.delta.chunks, o.white, p, s) ==>
        var start := Min(off, |s|);
        r == if There(o, p in o.delta.fs, p, start, Min(start + len, |s|)) then Ok(Slice(s, off, len)) else Err(Corrupt)
    ensures RefOk(o.delta.chunks, o.delta.blobs) ==>
      forall s {:trigger ViewHolds(o.base, o.delta.fs, o.delta.chunks, o.white, p, s)} ::
        ViewHolds(o.base, o.delta.fs, o.delta.chunks, o.white, p, s) ==> r == Ok(Slice(s, off, len))
  {
    var at := LookupFile(o.base.fs, o.delta.fs, o.white, p);
    if at == Missing { return Err(NotFound); }
    var size := if at == InDelta then o.delta.fs[p].size else o.base.fs[p].size;
    var start := Min(off, size);
    var end := Min(start + len, size);
    if RefOk(o.delta.chunks, o.delta.blobs) { SoundIsThere(o, at == InDelta, p, start, end); }
    forall s {:trigger ViewHolds(o.base, o.delta.fs, o.delta.chunks, o.white, p, s)}
      | ViewHolds(o.base, o.delta.fs, o.delta.chunks, o.white, p, s)
      ensures |s| == size && Slice(s, off, len) == s[start..end]
      ensures KeysHold(o.base, o.delta.chunks, at == InDelta, p, s)
    {
      ViewKeysHold(o.base, o.delta.fs, o.delta.chunks, o.white, p, s);
    }
    if start == end { return Ok([]); }
    r := ReadWindow(o, at == InDelta, p, start, end);
    if r.Ok? && |r.value| != end - start { r := Err(Corrupt); }
  }

  // ------------------------------------------------------------------ a whole file

  /** The first `n` chunk rows of `p` are pieces of `s`. */
  ghost predicate StartsWith(chunks: Chunks, p: Path, n: nat, s: Bytes) {
    n <= NumChunks(|s|) && forall i: nat {:trigger Slot(Live, p, i)} ::
      i < n ==> Slot(Live, p, i) in chunks && chunks[Slot(Live, p, i)] == Sha256(Piece(s, i))
  }

  ghost predicate AllThere(chunks: Chunks, blobs: Blobs, p: Path, n: nat) {
    forall i: nat {:trigger HasBlob(chunks, blobs, Slot(Live, p, i))} ::
      i < n ==> HasBlob(chunks, blobs, Slot(Live, p, i))
  }

  /** Join the layer's own chunks `0..n`. */
  method JoinDense(blobs: Blobs, dicts: Dicts, chunks: Chunks, p: Path, n: nat) returns (r: Result<Bytes>)
    requires InitialRun(chunks, Live, p, n) && BlobsDecode(dicts, blobs)
    ensures forall s: Bytes {:trigger StartsWith(chunks, p, n, s)} :: StartsWith(chunks, p, n, s) ==>
      r == if AllThere(chunks, blobs, p, n) then Ok(s[..Min(n * CHUNK_SIZE, |s|)]) else Err(Corrupt)
  {
    var out: Bytes := [];
    var i := 0;
    while i < n
      invariant i <= n && AllThere(chunks, blobs, p, i)
      invariant forall s: Bytes {:trigger StartsWith(chunks, p, n, s)} ::
        StartsWith(chunks, p, n, s) ==> out == s[..Min(i * CHUNK_SIZE, |s|)]
    {
      var slot := Slot(Live, p, i);
      assert DecodesAt(dicts, blobs, chunks[slot]);
      var piece := Block(blobs, dicts, chunks[slot]);
      if piece.Err? {
        assert !HasBlob(chunks, blobs, Slot(Live, p, i));
        return Err(Corrupt);
      }
      forall s: Bytes {:trigger StartsWith(chunks, p, n, s)} | StartsWith(chunks, p, n, s)
        ensures out + piece.value == s[..Min((i + 1) * CHUNK_SIZE, |s|)]
      {
        PieceAfterPrefix(s, i);
      }
      out := out + piece.value;
      i := i + 1;
    }
    r := Ok(out);
  }

  /** Chunk by chunk across the layers. Every chunk but the last must be full, the last long enough. */
  method ReadFileLayered(o: Overlay, inDelta: bool, p: Path, size: nat) returns (r: Result<Bytes>)
    requires BaseOk(o.base) && BlobsDecode(o.delta.dicts, o.delta.blobs)
    ensures forall s {:trigger KeysHold(o.base, o.delta.chunks, inDelta, p, s)} ::
      |s| == size && KeysHold(o.base, o.delta.chunks, inDelta, p, s) ==>
        r == if There(o, inDelta, p, 0, size) then Ok(s) else Err(Corrupt)
  {
    var total := NumChunks(size);
    var out: Bytes := [];
    var i := 0;
    while i < total
      invariant i <= total
      invariant forall s {:trigger KeysHold(o.base, o.delta.chunks, inDelta, p, s)} ::
        |s| == size && KeysHold(o.base, o.delta.chunks, inDelta, p, s) ==>
          && out == s[..Min(i * CHUNK_SIZE, |s|)]
          && forall j: nat {:trigger ThereAt(o, inDelta, p, j)} :: j < i ==> ThereAt(o, inDelta, p, j)
    {
      var piece := ReadChunkLayered(o, inDelta, p, i);
      var want := Min(size - i * CHUNK_SIZE, CHUNK_SIZE);
      forall s {:trigger KeysHold(o.base, o.delta.chunks, inDelta, p, s)}
        | |s| == size && KeysHold(o.base, o.delta.chunks, inDelta, p, s)
        ensures piece.Ok? <==> ThereAt(o, inDelta, p, i)
        ensures piece.Ok? ==> piece.value == Piece(s, i)
        ensures |Piece(s, i)| == want && out + Piece(s, i)[..want] == s[..Min((i + 1) * CHUNK_SIZE, |s|)]
      {
        assert PieceKeyAt(o.base, o.delta.chunks, inDelta, p, s, i);
        PieceAfterPrefix(s, i);
        assert Piece(s, i)[..want] == Piece(s, i);
      }
      if piece.Err? || |piece.value| < want || (i + 1 < total && |piece.value| != want) { return Err(Corrupt); }
      out := out + piece.value[..want];
      i := i + 1;
    }
    forall s {:trigger KeysHold(o.base, o.delta.chunks, inDelta, p, s)}
      | |s| == size && KeysHold(o.base, o.delta.chunks, inDelta, p, s)
      ensures out == s && There(o, inDelta, p, 0, size)
    {
      assert s[..|s|] == s;
    }
    if |out| != size { return Err(Corrupt); }
    r := Ok(out);
  }

  /** The Delta holds only a proper initial run of the file's chunks, possibly none. */
  ghost predicate ProperRun(chunks: Chunks, p: Path, s: Bytes) {
    exists n: nat :: n < NumChunks(|s|) && InitialRun(chunks, Live, p, n)
  }

  lemma RunPieces(b: Base, fs: Files, chunks: Chunks, p: Path, s: Bytes, n: nat)
    requires LayeredHolds(b, fs, chunks, p, s) && InitialRun(chunks, Live, p, n)
    ensures StartsWith(chunks, p, n, s)
    ensures ProperRun(chunks, p, s) <==> n < NumChunks(|s|)
  {
    if n > 0 { assert LayerAt(b, chunks, p, s, n - 1) && Slot(Live, p, n - 1) in chunks; }
    forall i: nat {:trigger Slot(Live, p, i)} | i < n ensures chunks[Slot(Live, p, i)] == Sha256(Piece(s, i)) {
      assert LayerAt(b, chunks, p, s, i);
    }
    if m: nat :| m < NumChunks(|s|) && InitialRun(chunks, Live, p, m) {
      SameRun(chunks, Live, p, m, n);
    }
  }

  /** A complete chunk list in the Delta is there exactly when the whole file is. */
  lemma WholeIsThere(o: Overlay, p: Path, size: nat)
    ensures AllThere(o.delta.chunks, o.delta.blobs, p, NumChunks(size)) <==> There(o, true, p, 0, size)
  {
    if There(o, true, p, 0, size) {
      forall i: nat | i < NumChunks(size) ensures HasBlob(o.delta.chunks, o.delta.blobs, Slot(Live, p, i)) {
        assert ThereAt(o, true, p, i);
      }
    }
  }

  /** Read a whole Delta file: from the Delta alone when its chunk list has no gap, across the layers
      otherwise. It fails exactly when the Delta holds a proper initial run of the chunks, or lacks a block. */
  method ReadDeltaFile(o: Overlay, p: Path) returns (r: Result<Bytes>)
    requires BaseOk(o.base) && BlobsDecode(o.delta.dicts, o.delta.blobs)
    requires p in o.delta.fs && o.delta.fs[p].kind == File
    ensures forall s {:trigger LayeredHolds(o.base, o.delta.fs, o.delta.chunks, p, s)} ::
      LayeredHolds(o.base, o.delta.fs, o.delta.chunks, p, s) ==>
        r == if !ProperRun(o.delta.chunks, p, s) && There(o, true, p, 0, |s|) then Ok(s) else Err(Corrupt)
  {
    var dense, n := ChunksAreDense(o.delta.chunks, Live, p);
    var size := o.delta.fs[p].size;
    if !dense {
      r := ReadFileLayered(o, true, p, size);
      forall s {:trigger LayeredHolds(o.base, o.delta.fs, o.delta.chunks, p, s)}
        | LayeredHolds(o.base, o.delta.fs, o.delta.chunks, p, s)
        ensures KeysHold(o.base, o.delta.chunks, true, p, s)
      {
        forall i: nat ensures PieceKeyAt(o.base, o.delta.chunks, true, p, s, i) {
          assert LayerAt(o.base, o.delta.chunks, p, s, i);
        }
      }
      return;
    }
    r := JoinDense(o.delta.blobs, o.delta.dicts, o.delta.chunks, p, n);
    forall s {:trigger LayeredHolds(o.base, o.delta.fs, o.delta.chunks, p, s)}
      | LayeredHolds(o.base, o.delta.fs, o.delta.chunks, p, s)
      ensures StartsWith(o.delta.chunks, p, n, s) && s[..|s|] == s
      ensures ProperRun(o.delta.chunks, p, s) <==> n < NumChunks(|s|)
      ensures n < NumChunks(|s|) <==> n * CHUNK_SIZE < |s|
      ensures AllThere(o.delta.chunks, o.delta.blobs, p, NumChunks(|s|)) <==> There(o, true, p, 0, |s|)
    {
      RunPieces(o.base, o.delta.fs, o.delta.chunks, p, s, n);
      WholeIsThere(o, p, |s|);
    }
    if r.Ok? && |r.value| != size { r := Err(Corrupt); }
  }

  /** Read a whole Base file: its own chunk list is complete. */
  method ReadBaseFile(o: Overlay, p: Path) returns (r: Result<Bytes>)
    requires BaseOk(o.base) && BlobsDecode(o.delta.dicts, o.delta.blobs)
    requires p in o.base.fs && o.base.fs[p].kind == File
    ensures forall s {:trigger FileHolds(o.base.fs, o.base.chunks, p, s)} ::
      FileHolds(o.base.fs, o.base.chunks, p, s) ==> r == Ok(s)
  {
    var b := o.base;
    var dense, n := ChunksAreDense(b.chunks, Live, p);
    forall s {:trigger FileHolds(b.fs, b.chunks, p, s)} | FileHolds(b.fs, b.chunks, p, s)
      ensures dense && n == NumChunks(|s|) && s[..|s|] == s && StartsWith(b.chunks, p, n, s)
    {
      forall i: nat {:trigger Slot(Live, p, i)} ensures Slot(Live, p, i) in b.chunks <==> i < NumChunks(|s|) {
        assert HoldsAt(b.chunks, p, s, i);
      }
      assert InitialRun(b.chunks, Live, p, NumChunks(|s|));
      SameRun(b.chunks, Live, p, n, NumChunks(|s|));
      forall i: nat {:trigger Slot(Live, p, i)} | i < n ensures b.chunks[Slot(Live, p, i)] == Sha256(Piece(s, i)) {
        assert HoldsAt(b.chunks, p, s, i);
      }
    }
    if !dense {
      r := ReadFileLayered(o, false, p, b.fs[p].size);
      return;
    }
    r := JoinDense(b.blobs, b.dicts, b.chunks, p, n);
    if r.Ok? && |r.value| != b.fs[p].size { r := Err(Corrupt); }
  }

  /** Read a whole file through the overlay. What it returns is what the full ranged read returns, never wrong
      or short bytes, also when a block of the Delta is missing. It fails exactly when that happens, or when the
      file is in the Delta with a proper initial run of its chunks there. */
  method ReadFile(o: Overlay, p: Path) returns (r: Result<Bytes>)
    requires BaseOk(o.base) && BlobsDecode(o.delta.dicts, o.delta.blobs)
    ensures LookupFile(o.base.fs, o.delta.fs, o.white, p) == Missing ==> r == Err(NotFound)
    ensures forall s {:trigger ViewHolds(o.base, o.delta.fs, o.delta.chunks, o.white, p, s)} ::
      ViewHolds(o.base, o.delta.fs, o.delta.chunks, o.white, p, s) ==>
        r == if (p in o.delta.fs ==> !ProperRun(o.delta.chunks, p, s)) && There(o, p in o.delta.fs, p, 0, |s|)
          then Ok(Slice(s, 0, |s|)) else Err(Corrupt)
  {
    forall s: Bytes ensures Slice(s, 0, |s|) == s {}
    match LookupFile(o.base.fs, o.delta.fs, o.white, p)
    case InDelta => r := ReadDeltaFile(o, p);
    case InBase => r := ReadBaseFile(o, p);
    case Missing => r := Err(NotFound);
  }
}
