/** Ranged writes and truncation through the overlay: only the chunks a write touches enter the Delta. */
module OverlayWrites {
  import opened Tables
  import opened Chunking
  import opened Policy
  import opened Connections
  import opened Views
  import opened Read
  import opened Store
  import opened Ranges
  import opened OverlayNames
  import opened Overlays
  import opened OverlayFiles
  import opened RawChunks

  // ------------------------------------------------------------------ the edits

  datatype Edit = Splicing(off: nat, data: Bytes) | Resizing(size: nat)

  function Edited(s: Bytes, e: Edit): Bytes {
    match e
    case Splicing(off, data) => Splice(s, off, data)
    case Resizing(n) => Resize(s, n)
  }

  /** The chunks an edit of a file of `size` bytes rewrites. */
  function First(size: nat, e: Edit): nat {
    match e
    case Splicing(off, data) => Min(off, size) / CHUNK_SIZE
    case Resizing(n) => Min(n, size) / CHUNK_SIZE
  }

  function End(e: Edit): nat {
    match e
    case Splicing(off, data) => if data == [] then 0 else (off + |data| - 1) / CHUNK_SIZE + 1
    case Resizing(n) => NumChunks(n)
  }

  /** An edit that does something. */
  predicate Real(size: nat, e: Edit) {
    match e
    case Splicing(_, data) => data != []
    case Resizing(n) => n != size
  }

  /** Chunk `i` after the edit, from the old piece (empty past the old end). */
  function NewBytes(piece: Bytes, size: nat, e: Edit, i: nat): Bytes
    requires First(size, e) <= i < End(e)
  {
    var base := i * CHUNK_SIZE;
    match e
    case Splicing(off, data) =>
      Patched(piece, base, Min(base + CHUNK_SIZE, Max(size, off + |data|)) - base, off, data)
    case Resizing(n) =>
      var want := Min(n - base, CHUNK_SIZE);
      if |piece| > want then piece[..want] else piece + Zeros(want - |piece|)
  }

  /** It is the piece of the edited content. */
  lemma NewBytesIs(s: Bytes, e: Edit, i: nat)
    requires Real(|s|, e) && First(|s|, e) <= i < End(e)
    ensures NewBytes(Piece(s, i), |s|, e, i) == Piece(Edited(s, e), i)
  {
    match e
    case Splicing(off, data) => PatchedIsPiece(s, off, data, i);
    case Resizing(n) => ResizedPiece(s, n, i);
  }

  method EditPiece(piece: Bytes, size: nat, e: Edit, i: nat) returns (r: Bytes)
    requires First(size, e) <= i < End(e)
    ensures r == NewBytes(piece, size, e, i)
  {
    var base := i * CHUNK_SIZE;
    match e
    case Splicing(off, data) =>
      var end := Min(base + CHUNK_SIZE, Max(size, off + |data|));
      r := Patch(piece, base, end - base, off, data);
    case Resizing(n) =>
      var want := Min(n - base, CHUNK_SIZE);
      r := if |piece| > want then piece[..want] else piece + Zeros(want - |piece|);
  }

  lemma ResizedPiece(s: Bytes, n: nat, i: nat)
    requires Min(n, |s|) / CHUNK_SIZE <= i < NumChunks(n)
    ensures var piece, want := Piece(s, i), Min(n - i * CHUNK_SIZE, CHUNK_SIZE);
      Piece(Resize(s, n), i) == if |piece| > want then piece[..want] else piece + Zeros(want - |piece|)
  {
    var base, piece, want, t := i * CHUNK_SIZE, Piece(s, i), Min(n - i * CHUNK_SIZE, CHUNK_SIZE), Resize(s, n);
    var r := if |piece| > want then piece[..want] else piece + Zeros(want - |piece|);
    assert |Piece(t, i)| == want == |r|;
    forall j | 0 <= j < want ensures Piece(t, i)[j] == r[j] {
      assert Piece(t, i)[j] == t[base + j];
      assert base + j < |s| ==> j < |piece| && piece[j] == s[base + j];
    }
  }

  lemma UntouchedByEdit(s: Bytes, e: Edit, i: nat)
    requires Real(|s|, e) && !(First(|s|, e) <= i < End(e)) && i < NumChunks(|Edited(s, e)|)
    ensures i < NumChunks(|s|) && Piece(Edited(s, e), i) == Piece(s, i)
  {
    match e
    case Splicing(off, data) => UntouchedPiece(s, off, data, i);
    case Resizing(n) =>
      assert |Resize(s, n)| == n;
      if n < |s| { CutPieces(s, n, i); }
      else {
        var t := Resize(s, n);
        assert (i + 1) * CHUNK_SIZE <= |s|;
        assert t[i * CHUNK_SIZE..(i + 1) * CHUNK_SIZE] == s[i * CHUNK_SIZE..(i + 1) * CHUNK_SIZE];
      }
  }

  // ------------------------------------------------------------------ rewriting the touched chunks

  /** The chunk rows once the pieces `lo..i` of `t` are written at `p`. */
  ghost function Mid(a: Chunks, p: Path, t: Bytes, lo: nat, i: nat): Chunks
    decreases i
  {
    if i <= lo then a else Mid(a, p, t, lo, i - 1)[Slot(Live, p, i - 1) := Sha256(Piece(t, i - 1))]
  }

  lemma {:induction false} MidIs(a: Chunks, p: Path, t: Bytes, lo: nat, i: nat)
    requires lo <= i
    ensures Frame(a, Mid(a, p, t, lo, i), p, lo, i) && PiecesOn(Mid(a, p, t, lo, i), p, t, lo, i)
    decreases i
  {
    if lo == i {
      forall s ensures FrameAt(a, a, p, lo, i, s) {}
    } else {
      MidIs(a, p, t, lo, i - 1);
      FrameMore(a, Mid(a, p, t, lo, i - 1), p, lo, i - 1, Sha256(Piece(t, i - 1)));
      PiecesMore(Mid(a, p, t, lo, i - 1), p, t, lo, i - 1, Sha256(Piece(t, i - 1)));
    }
  }

  ghost predicate LosesAt(a: Chunks, p: Path, t: Bytes, lo: nat, i: nat) {
    LossyAt(Mid(a, p, t, lo, i), Slot(Live, p, i), Sha256(Piece(t, i)))
  }

  /** Some touched chunk of the Delta is rewritten with its own bytes while it is the only one that has them. */
  ghost predicate Loses(a: Chunks, p: Path, t: Bytes, lo: nat, hi: nat) {
    exists i: nat :: lo <= i < hi && LosesAt(a, p, t, lo, i)
  }

  /** The old bytes of chunk `i` while the chunks before it are already rewritten. */
  method OldLayered(o: Overlay, inDelta: bool, size: nat, p: Path, i: nat, ghost a: Chunks, ghost lo: nat,
                    ghost s: Bytes) returns (r: Result<Bytes>)
    requires BaseOk(o.base) && BlobsDecode(o.delta.dicts, o.delta.blobs)
    requires |s| == size && KeysHold(o.base, a, inDelta, p, s) && Frame(a, o.delta.chunks, p, lo, i)
    ensures r.Ok? ==> r.value == Piece(s, i)
    ensures Core(o.delta.chunks, o.delta.blobs, o.delta.dicts) ==> r.Ok?
  {
    if i * CHUNK_SIZE >= size { return Ok([]); }
    assert PieceKeyAt(o.base, a, inDelta, p, s, i);
    assert FrameAt(a, o.delta.chunks, p, lo, i, Slot(Live, p, i));
    r := ReadChunkLayered(o, inDelta, p, i);
    if Core(o.delta.chunks, o.delta.blobs, o.delta.dicts) {
      assert HasBlob(o.delta.chunks, o.delta.blobs, Slot(Live, p, i));
    }
  }

  /** The new bytes of chunk `i` while the chunks before it are already rewritten. */
  method NewPiece(o: Overlay, inDelta: bool, size: nat, p: Path, e: Edit, i: nat, ghost a: Chunks,
                  ghost s: Bytes) returns (r: Result<Bytes>)
    requires BaseOk(o.base) && BlobsDecode(o.delta.dicts, o.delta.blobs)
    requires Real(size, e) && |s| == size && KeysHold(o.base, a, inDelta, p, s) && First(size, e) <= i < End(e)
    requires o.delta.chunks == Mid(a, p, Edited(s, e), First(size, e), i)
    ensures r.Ok? ==> r.value == Piece(Edited(s, e), i)
    ensures Core(o.delta.chunks, o.delta.blobs, o.delta.dicts) ==> r.Ok?
  {
    MidIs(a, p, Edited(s, e), First(size, e), i);
    r := OldLayered(o, inDelta, size, p, i, a, First(size, e), s);
    if r.Ok? {
      NewBytesIs(s, e, i);
      var edited := EditPiece(r.value, size, e, i);
      r := Ok(edited);
    }
  }

  /** A lossy rewrite leaves a blob short that none of the rows still to be rewritten names. */
  lemma LossyElsewhere(chunks: Chunks, p: Path, i: nat, key: Key, j: nat)
    requires LossyAt(chunks, Slot(Live, p, i), key) && j != i && Slot(Live, p, j) in chunks
    ensures chunks[Slot(Live, p, j)] != key
  {
    if chunks[Slot(Live, p, j)] == key {
      var two := {Slot(Live, p, i), Slot(Live, p, j)};
      assert two <= Refs(chunks, key) && |two| == 2;
      SubsetSize(two, Refs(chunks, key));
      assert false;
    }
  }

  lemma SubsetSize(x: set<Slot>, y: set<Slot>)
    requires x <= y
    ensures |x| <= |y|
  {
    assert y == x + (y - x);
  }

  ghost predicate NotAheadAt(chunks: Chunks, p: Path, k: Key, j: nat) {
    Slot(Live, p, j) in chunks ==> chunks[Slot(Live, p, j)] != k
  }

  /** Blob `k` is short, and no chunk row of `p` from `i` on names it. */
  ghost predicate ShortBehind(chunks: Chunks, blobs: Blobs, p: Path, i: nat, k: Key) {
    && Short(chunks, blobs, k)
    && forall j: nat {:trigger NotAheadAt(chunks, p, k, j)} :: i <= j ==> NotAheadAt(chunks, p, k, j)
  }

  /** Where the run stands before chunk `i`. From exact counts with the idle blobs `idle`, the counts are exact
      so far, or some blob is short for good. */
  ghost predicate Tracked(c: Connection, a: Chunks, idle: Option<set<Key>>, p: Path, t: Bytes, lo: nat, i: nat)
    reads c
  {
    && BlobsDecode(c.dicts, c.blobs) && c.chunks == Mid(a, p, t, lo, i)
    && (idle.Some? && !Loses(a, p, t, lo, i) ==>
      RefOk(c.chunks, c.blobs) && Idle(c.chunks, c.blobs) <= idle.value)
    && (idle.Some? && Loses(a, p, t, lo, i) ==> exists k :: ShortBehind(c.chunks, c.blobs, p, i, k))
  }

  /** The idle blobs, if the counts are exact. */
  ghost function IdleOf(chunks: Chunks, blobs: Blobs): Option<set<Key>> {
    if RefOk(chunks, blobs) then Some(Idle(chunks, blobs)) else None
  }

  lemma LosesMore(a: Chunks, p: Path, t: Bytes, lo: nat, i: nat)
    requires lo <= i
    ensures Loses(a, p, t, lo, i + 1) <==> Loses(a, p, t, lo, i) || LosesAt(a, p, t, lo, i)
  {
  }

  method PutTracked(c: Connection, p: Path, i: nat, piece: Bytes, ghost a: Chunks, ghost idle: Option<set<Key>>,
                    ghost t: Bytes, ghost lo: nat)
    requires lo <= i && piece == Piece(t, i) && Tracked(c, a, idle, p, t, lo, i)
    modifies c`chunks, c`blobs
    ensures Tracked(c, a, idle, p, t, lo, i + 1)
  {
    ghost var chunks, slot, key := c.chunks, Slot(Live, p, i), Sha256(piece);
    ghost var lost := idle.Some? && Loses(a, p, t, lo, i);
    ghost var k := key;
    if lost { k :| ShortBehind(c.chunks, c.blobs, p, i, k); assert NotAheadAt(c.chunks, p, k, i); }
    PutRaw(c, Slot(Live, p, i), piece);
    LosesMore(a, p, t, lo, i);
    if lost || (idle.Some? && LossyAt(chunks, slot, key)) {
      forall j: nat {:trigger NotAheadAt(c.chunks, p, k, j)} | i + 1 <= j ensures NotAheadAt(c.chunks, p, k, j) {
        if lost {
          assert NotAheadAt(chunks, p, k, j);
        } else if Slot(Live, p, j) in chunks {
          LossyElsewhere(chunks, p, i, key, j);
        }
      }
      assert ShortBehind(c.chunks, c.blobs, p, i + 1, k);
    }
  }

  lemma TrackedStart(c: Connection, p: Path, t: Bytes, lo: nat)
    requires BlobsDecode(c.dicts, c.blobs)
    ensures Tracked(c, c.chunks, IdleOf(c.chunks, c.blobs), p, t, lo, lo)
  {
  }

  lemma LosesBy(a: Chunks, p: Path, t: Bytes, lo: nat, i: nat, hi: nat)
    requires Loses(a, p, t, lo, i) && i <= hi
    ensures Loses(a, p, t, lo, hi)
  {
  }

  /** One touched chunk read and rewritten. */
  method PutNext(o: Overlay, inDelta: bool, size: nat, p: Path, e: Edit, i: nat, ghost a: Chunks,
                 ghost idle: Option<set<Key>>, ghost s: Bytes) returns (ok: bool)
    requires BaseOk(o.base) && Tracked(o.delta, a, idle, p, Edited(s, e), First(size, e), i)
    requires Real(size, e) && |s| == size && KeysHold(o.base, a, inDelta, p, s) && First(size, e) <= i < End(e)
    modifies o.delta`chunks, o.delta`blobs
    ensures ok ==> Tracked(o.delta, a, idle, p, Edited(s, e), First(size, e), i + 1)
    ensures idle.Some? && !ok ==> Loses(a, p, Edited(s, e), First(size, e), i)
  {
    var piece := NewPiece(o, inDelta, size, p, e, i, a, s);
    ok := piece.Ok?;
    if ok { PutTracked(o.delta, p, i, piece.value, a, idle, Edited(s, e), First(size, e)); }
  }

  /** Rewrite the touched chunks. From exact counts, without a lossy rewrite it succeeds and keeps them exact;
      with one it fails or leaves some blob short. */
  method PutPieces(o: Overlay, inDelta: bool, size: nat, p: Path, e: Edit, ghost s: Bytes, ghost a: Chunks,
                   ghost idle: Option<set<Key>>) returns (ok: bool)
    requires BaseOk(o.base) && BlobsDecode(o.delta.dicts, o.delta.blobs)
    requires a == o.delta.chunks && idle == IdleOf(a, o.delta.blobs)
    requires Real(size, e) && |s| == size && KeysHold(o.base, a, inDelta, p, s) && First(size, e) <= End(e)
    modifies o.delta`chunks, o.delta`blobs
    ensures ok ==> Tracked(o.delta, a, idle, p, Edited(s, e), First(size, e), End(e))
    ensures !ok && idle.Some? ==> Loses(a, p, Edited(s, e), First(size, e), End(e))
  {
    ghost var t := Edited(s, e);
    var lo, hi := First(size, e), End(e);
    var i := lo;
    TrackedStart(o.delta, p, t, lo);
    while i < hi
      invariant lo <= i <= hi && Tracked(o.delta, a, idle, p, t, lo, i)
    {
      ok := PutNext(o, inDelta, size, p, e, i, a, idle, s);
      if !ok {
        if idle.Some? { LosesBy(a, p, t, lo, i, hi); }
        return;
      }
      i := i + 1;
    }
    ok := true;
  }

  // ------------------------------------------------------------------ the row

  /** The content an edit of `p` starts from under the whiteouts `white`: the file there, or nothing. */
  ghost predicate StartsFrom(b: Base, fs: Files, chunks: Chunks, white: set<Path>, p: Path, s: Bytes) {
    match LookupFile(b.fs, fs, white, p)
    case InDelta => LayeredHolds(b, fs, chunks, p, s)
    case InBase => FileHolds(b.fs, b.chunks, p, s)
    case Missing => s == []
  }

  /** The Delta row an edit leaves: created as a file on first write, updated in place afterwards. */
  function EditedRow(b: Base, fs: Files, white: set<Path>, p: Path, mtime: int, size: nat, hash: Option<Key>): Row {
    if p in fs then fs[p].(size := size, mtime := mtime, hash := hash)
    else Row(File, if LookupFile(b.fs, fs, white, p) == InBase then b.fs[p].mode else 420, mtime, 0, size, None, hash)
  }

  lemma StartKeys(b: Base, fs: Files, chunks: Chunks, white: set<Path>, p: Path, s: Bytes)
    requires StartsFrom(b, fs, chunks, white, p, s)
    ensures KeysHold(b, chunks, LookupFile(b.fs, fs, white, p) == InDelta, p, s)
  {
    var inDelta := LookupFile(b.fs, fs, white, p) == InDelta;
    forall i: nat ensures PieceKeyAt(b, chunks, inDelta, p, s, i) {
      if s != [] { ViewKeys(b, fs, chunks, white, p, s, i); }
    }
  }

  /** Every chunk row `lo..hi` is new, every other one as it was, cut at the new end. */
  ghost predicate EditedRows(a: Chunks, d: Chunks, p: Path, t: Bytes, lo: nat, hi: nat, cut: bool) {
    PiecesOn(d, p, t, lo, hi) && exists m :: Frame(a, m, p, lo, hi) && (if cut then TailCut(m, d, p, hi) else d == m)
  }

  /** The layered chunk list after an edit is that of the edited content. */
  lemma EditedLayer(b: Base, fs: Files, a: Chunks, d: Chunks, snaps: Snapshots, undos: Undos, white: set<Path>, p: Path,
                    s: Bytes, e: Edit, i: nat)
    requires StartsFrom(b, fs, a, white, p, s) && Rooted(fs, a, snaps, undos) && Real(|s|, e)
    requires EditedRows(a, d, p, Edited(s, e), First(|s|, e), End(e), e.Resizing?)
    ensures PieceKeyAt(b, d, true, p, Edited(s, e), i)
    ensures p !in fs || fs[p].kind == File ==> LayerAt(b, d, p, Edited(s, e), i)
  {
    var t, lo, hi, slot := Edited(s, e), First(|s|, e), End(e), Slot(Live, p, i);
    var m :| Frame(a, m, p, lo, hi) && (if e.Resizing? then TailCut(m, d, p, hi) else d == m);
    assert FrameAt(a, m, p, lo, hi, slot);
    assert e.Resizing? ==> TailCutAt(m, d, p, hi, slot);
    assert RootedAt(fs, a, snaps, undos, slot);
    EditedSize(s, e);
    if lo <= i < hi {
      assert PieceAt(d, p, t, i);
    } else {
      if i < NumChunks(|t|) {
        UntouchedByEdit(s, e, i);
        ViewKeys(b, fs, a, white, p, s, i);
      }
      if p in fs && fs[p].kind == File { assert LayerAt(b, a, p, s, i); }
    }
  }

  lemma EditedSize(s: Bytes, e: Edit)
    requires Real(|s|, e)
    ensures End(e) <= NumChunks(|Edited(s, e)|) && (e.Resizing? ==> End(e) == NumChunks(|Edited(s, e)|))
    ensures e.Splicing? ==> NumChunks(|Edited(s, e)|) == Max(NumChunks(|s|), End(e))
    ensures |Edited(s, e)| == match e case Splicing(off, data) => Max(|s|, off + |data|) case Resizing(n) => n
  {
    if e.Splicing? { SpliceAt(s, e.off, e.data); }
  }

  /** Write one row of the Delta; without rules nothing refuses it. */
  method SetRow(c: Connection, p: Path, row: Row)
    requires c.rules == []
    modifies c`fs, c`logical
    ensures c.fs == old(c.fs)[p := row]
    ensures old(c.logical) == Total(old(c.fs)) ==> c.logical == Total(c.fs)
  {
    var ok := UpsertRow(c, p, row);
  }

  /** The whole-file hash over the layered chunks, and the row's final size and time. A chunk without its
      blob is an error. */
  method RefreshDeltaFile(o: Overlay, p: Path, size: nat, mtime: int, ghost t: Bytes) returns (ok: bool)
    requires BaseOk(o.base) && BlobsDecode(o.delta.dicts, o.delta.blobs) && o.delta.rules == [] && p in o.delta.fs
    requires |t| == size && KeysHold(o.base, o.delta.chunks, true, p, t)
    modifies o.delta`fs, o.delta`logical
    ensures Core(o.delta.chunks, o.delta.blobs, o.delta.dicts) ==> ok
    ensures ok ==>
        o.delta.fs == old(o.delta.fs)[p := old(o.delta.fs)[p].(size := size, hash := Some(Sha256(t)), mtime := mtime)]
    ensures old(o.delta.logical) == Total(old(o.delta.fs)) ==> o.delta.logical == Total(o.delta.fs)
  {
    var h: Bytes := [];
    var i := 0;
    while i < NumChunks(size)
      invariant i <= NumChunks(size) && h == t[..Min(i * CHUNK_SIZE, |t|)]
      invariant o.delta.fs == old(o.delta.fs) && o.delta.logical == old(o.delta.logical)
    {
      assert PieceKeyAt(o.base, o.delta.chunks, true, p, t, i);
      if Core(o.delta.chunks, o.delta.blobs, o.delta.dicts) {
        assert HasBlob(o.delta.chunks, o.delta.blobs, Slot(Live, p, i));
      }
      var piece := ReadChunkLayered(o, true, p, i);
      if piece.Err? { return false; }
      PieceAfterPrefix(t, i);
      h := h + piece.value;
      i := i + 1;
    }
    assert h == t by { assert t[..|t|] == t; }
    SetRow(o.delta, p, o.delta.fs[p].(size := size, hash := Some(Sha256(h)), mtime := mtime));
    ok := true;
  }

  lemma TrackedRows(a: Chunks, m: Chunks, d: Chunks, p: Path, t: Bytes, lo: nat, hi: nat, cut: bool)
    requires lo <= hi && m == Mid(a, p, t, lo, hi) && if cut then TailCut(m, d, p, hi) else d == m
    ensures EditedRows(a, d, p, t, lo, hi, cut) && Others(a, d, p)
  {
    MidIs(a, p, t, lo, hi);
    forall j: nat | lo <= j < hi ensures PieceAt(d, p, t, j) {
      assert PieceAt(m, p, t, j);
      assert cut ==> TailCutAt(m, d, p, hi, Slot(Live, p, j));
    }
    forall s ensures OthersAt(a, d, p, s) {
      assert FrameAt(a, m, p, lo, hi, s);
      assert cut ==> TailCutAt(m, d, p, hi, s);
    }
  }

  /** A resize never rewrites a chunk with its own bytes. */
  lemma ResizeNeverLoses(b: Base, fs: Files, a: Chunks, snaps: Snapshots, undos: Undos, white: set<Path>, p: Path,
                         s: Bytes, n: nat)
    requires StartsFrom(b, fs, a, white, p, s) && Rooted(fs, a, snaps, undos) && n != |s|
    requires LookupFile(b.fs, fs, white, p) != Missing
    ensures !Loses(a, p, Resize(s, n), Min(n, |s|) / CHUNK_SIZE, NumChunks(n))
  {
    var t, lo := Resize(s, n), Min(n, |s|) / CHUNK_SIZE;
    forall i: nat | lo <= i < NumChunks(n) ensures !LosesAt(a, p, t, lo, i) {
      var slot := Slot(Live, p, i);
      MidIs(a, p, t, lo, i);
      assert FrameAt(a, Mid(a, p, t, lo, i), p, lo, i, slot);
      assert RootedAt(fs, a, snaps, undos, slot);
      if p in fs { assert LayerAt(b, a, p, s, i); }
      assert |Piece(t, i)| != |Piece(s, i)|;
    }
  }

  // ------------------------------------------------------------------ the whole edit

  /** From exact counts, an edit without a lossy rewrite succeeds and keeps them exact; one with a lossy rewrite
      fails or leaves wrong ones. */
  twostate predicate CountsAfter(c: Connection, lossy: bool, ok: bool)
    reads c`chunks, c`blobs
  {
    old(RefOk(c.chunks, c.blobs)) ==>
      if lossy then ok ==> !RefOk(c.chunks, c.blobs)
      else ok && RefOk(c.chunks, c.blobs) && Idle(c.chunks, c.blobs) <= old(Idle(c.chunks, c.blobs))
  }

  /** The touched chunks of the Delta are rewritten, the tail past a smaller size is dropped. */
  method EditChunks(o: Overlay, inDelta: bool, size: nat, p: Path, e: Edit, ghost s: Bytes) returns (ok: bool)
    requires BaseOk(o.base) && BlobsDecode(o.delta.dicts, o.delta.blobs)
    requires Real(size, e) && |s| == size && KeysHold(o.base, o.delta.chunks, inDelta, p, s) && First(size, e) <= End(e)
    requires e.Resizing? ==> !Loses(o.delta.chunks, p, Edited(s, e), First(size, e), End(e))
    modifies o.delta`chunks, o.delta`blobs
    ensures var a, t, lo, hi := old(o.delta.chunks), Edited(s, e), First(size, e), End(e);
      && (ok ==>
        && BlobsDecode(o.delta.dicts, o.delta.blobs)
        && EditedRows(a, o.delta.chunks, p, t, lo, hi, e.Resizing?) && Others(a, o.delta.chunks, p))
      && CountsAfter(o.delta, Loses(a, p, t, lo, hi), ok)
  {
    ghost var a, t, lo, hi := o.delta.chunks, Edited(s, e), First(size, e), End(e);
    ghost var exact := RefOk(o.delta.chunks, o.delta.blobs);
    ok := PutPieces(o, inDelta, size, p, e, s, a, IdleOf(a, o.delta.blobs));
    if !ok { return; }
    ghost var m := o.delta.chunks;
    if exact && Loses(a, p, t, lo, hi) {
      ghost var k :| ShortBehind(o.delta.chunks, o.delta.blobs, p, hi, k);
      if RefOk(o.delta.chunks, o.delta.blobs) { OkNotShort(o.delta.chunks, o.delta.blobs, k); }
    }
    if e.Resizing? { CutTail(o.delta, p, End(e)); }
    TrackedRows(a, m, o.delta.chunks, p, t, lo, hi, e.Resizing?);
  }

  lemma EditedKeys(b: Base, fs: Files, a: Chunks, d: Chunks, snaps: Snapshots, undos: Undos, white: set<Path>, p: Path,
                   s: Bytes, e: Edit)
    requires StartsFrom(b, fs, a, white, p, s) && Rooted(fs, a, snaps, undos) && Real(|s|, e)
    requires EditedRows(a, d, p, Edited(s, e), First(|s|, e), End(e), e.Resizing?)
    ensures KeysHold(b, d, true, p, Edited(s, e))
    ensures p !in fs || fs[p].kind == File ==>
        forall i: nat {:trigger LayerAt(b, d, p, Edited(s, e), i)} :: LayerAt(b, d, p, Edited(s, e), i)
  {
    var t := Edited(s, e);
    forall i: nat
      ensures PieceKeyAt(b, d, true, p, t, i) && (p !in fs || fs[p].kind == File ==> LayerAt(b, d, p, t, i)) {
      EditedLayer(b, fs, a, d, snaps, undos, white, p, s, e, i);
    }
  }

  /** The last step of an edit, and what it leaves of the invariant. */
  method FinishEdit(o: Overlay, p: Path, size: nat, mtime: int, ghost t: Bytes, ghost fs: Files,
                    ghost a: Chunks) returns (ok: bool)
    requires BaseOk(o.base) && BlobsDecode(o.delta.dicts, o.delta.blobs) && o.delta.rules == []
    requires p in o.delta.fs && o.delta.fs == fs[p := o.delta.fs[p]] && o.delta.logical == Total(o.delta.fs)
    requires forall q {:trigger q in o.delta.dirty} :: q in o.delta.dirty ==> q in fs
    requires Rooted(fs, a, o.delta.snaps, o.delta.undos) && Others(a, o.delta.chunks, p)
    requires |t| == size && KeysHold(o.base, o.delta.chunks, true, p, t)
    modifies o.delta`fs, o.delta`logical
    ensures Core(o.delta.chunks, o.delta.blobs, o.delta.dicts) ==> ok
    ensures ok ==> o.delta.fs == fs[p := old(o.delta.fs)[p].(size := size, hash := Some(Sha256(t)), mtime := mtime)]
    ensures ok ==> Shaped(o.delta)
  {
    ok := RefreshDeltaFile(o, p, size, mtime, t);
    if !ok { return; }
    OthersRooted(fs, a, o.delta.chunks, o.delta.snaps, o.delta.undos, p, o.delta.fs[p]);
    assert o.delta.fs == fs[p := o.delta.fs[p]];
  }

  /** The row at `p` after an edit, field by field. A row the Delta had keeps its kind, mode, link and stamp. A
      new one is a file with the mode of the Base file it starts from, if no whiteout hides that, or 0644. */
  ghost predicate RowEdited(base: Files, white: set<Path>, fs: Files, fs': Files, p: Path, mtime: int, t: Bytes) {
    && p in fs' && fs'[p].mtime == mtime && fs'[p].size == |t| && fs'[p].hash == Some(Sha256(t))
    && if p in fs then
        fs'[p].kind == fs[p].kind && fs'[p].mode == fs[p].mode && fs'[p].link == fs[p].link
        && fs'[p].mtimeNs == fs[p].mtimeNs
      else
        && fs'[p].kind == File && fs'[p].link.None? && fs'[p].mtimeNs == 0
        && fs'[p].mode == if p in base && base[p].kind == File && (forall w :: w in white ==> !(w <= p))
          then base[p].mode else 420
  }

  lemma TablesRow(b: Base, white: set<Path>, fs: Files, a: Chunks, fs': Files, d: Chunks, p: Path, e: Edit, mtime: int,
                  s: Bytes)
    requires TablesEdited(b, white, fs, a, fs', d, p, e, mtime, s)
    ensures RowEdited(b.fs, white, fs, fs', p, mtime, Edited(s, e))
  {
    assert Hidden(white, p) <==> exists w :: w in white && w <= p;
  }

  /** The tables an edit under the whiteouts `white` leaves: the row shows the new size and hash, only the
      touched chunk rows are new, and the file holds the new bytes. */
  ghost predicate TablesEdited(b: Base, white: set<Path>, fs: Files, a: Chunks, fs': Files, d: Chunks, p: Path,
                               e: Edit, mtime: int, s: Bytes) {
    var t := Edited(s, e);
    && fs' == fs[p := EditedRow(b, fs, white, p, mtime, |t|, Some(Sha256(t)))]
    && EditedRows(a, d, p, t, First(|s|, e), End(e), e.Resizing?) && Others(a, d, p)
    && (p !in fs || fs[p].kind == File ==> LayeredHolds(b, fs', d, p, t))
  }

  lemma EditedTables(b: Base, white: set<Path>, fs: Files, a: Chunks, fs': Files, d: Chunks, snaps: Snapshots,
                     undos: Undos, p: Path, e: Edit, mtime: int, s: Bytes)
    requires StartsFrom(b, fs, a, white, p, s) && Rooted(fs, a, snaps, undos) && Real(|s|, e)
    requires EditedRows(a, d, p, Edited(s, e), First(|s|, e), End(e), e.Resizing?) && Others(a, d, p)
    requires
      var t := Edited(s, e);
      fs' == fs[p := EditedRow(b, fs, white, p, mtime, |t|, Some(Sha256(t)))]
    ensures TablesEdited(b, white, fs, a, fs', d, p, e, mtime, s)
  {
    EditedKeys(b, fs, a, d, snaps, undos, white, p, s, e);
  }

  /** The chunks of an edit and the final row, once the row is there. */
  method EditRest(o: Overlay, inDelta: bool, size: nat, newSize: nat, p: Path, e: Edit, mtime: int, ghost s: Bytes,
                  ghost fs: Files) returns (ok: bool)
    requires BaseOk(o.base) && BlobsDecode(o.delta.dicts, o.delta.blobs) && o.delta.rules == []
    requires p in o.delta.fs && o.delta.fs == fs[p := o.delta.fs[p]] && o.delta.logical == Total(o.delta.fs)
    requires forall q {:trigger q in o.delta.dirty} :: q in o.delta.dirty ==> q in fs
    requires Rooted(fs, o.delta.chunks, o.delta.snaps, o.delta.undos)
    requires StartsFrom(o.base, fs, o.delta.chunks, o.white, p, s) && Real(|s|, e)
    requires inDelta == (LookupFile(o.base.fs, fs, o.white, p) == InDelta) && |s| == size && |Edited(s, e)| == newSize
    requires e.Resizing? ==> !Loses(o.delta.chunks, p, Edited(s, e), First(size, e), End(e))
    modifies o.delta`fs, o.delta`chunks, o.delta`blobs, o.delta`logical
    ensures ok ==>
      && Shaped(o.delta) && BlobsDecode(o.delta.dicts, o.delta.blobs)
      && o.delta.fs ==
        fs[p := old(o.delta.fs)[p].(size := newSize, hash := Some(Sha256(Edited(s, e))), mtime := mtime)]
      && EditedRows(old(o.delta.chunks), o.delta.chunks, p, Edited(s, e), First(size, e), End(e), e.Resizing?)
      && Others(old(o.delta.chunks), o.delta.chunks, p)
    ensures CountsAfter(o.delta, Loses(old(o.delta.chunks), p, Edited(s, e), First(size, e), End(e)), ok)
  {
    ghost var a := o.delta.chunks;
    StartKeys(o.base, fs, a, o.white, p, s);
    ok := EditChunks(o, inDelta, size, p, e, s);
    if !ok { return; }
    EditedKeys(o.base, fs, a, o.delta.chunks, o.delta.snaps, o.delta.undos, o.white, p, s, e);
    ok := FinishEdit(o, p, newSize, mtime, Edited(s, e), fs, a);
  }

  /** An edit that does something, inside its transaction. */
  method EditFile(o: Overlay, p: Path, e: Edit, mtime: int, ghost s: Bytes) returns (ok: bool)
    requires BaseOk(o.base) && Shaped(o.delta) && BlobsDecode(o.delta.dicts, o.delta.blobs) && o.delta.rules == []
    requires StartsFrom(o.base, o.delta.fs, o.delta.chunks, o.white, p, s) && Real(|s|, e)
    requires e.Resizing? ==> LookupFile(o.base.fs, o.delta.fs, o.white, p) != Missing
    modifies o.delta`fs, o.delta`chunks, o.delta`blobs, o.delta`logical
    ensures ok ==>
      && Shaped(o.delta) && BlobsDecode(o.delta.dicts, o.delta.blobs)
      && TablesEdited(o.base, o.white, old(o.delta.fs), old(o.delta.chunks), o.delta.fs, o.delta.chunks, p, e, mtime, s)
    ensures CountsAfter(o.delta, Loses(old(o.delta.chunks), p, Edited(s, e), First(|s|, e), End(e)), ok)
  {
    ghost var fs, a := o.delta.fs, o.delta.chunks;
    var at := LookupFile(o.base.fs, o.delta.fs, o.white, p);
    var size := if at == InDelta then o.delta.fs[p].size else if at == InBase then o.base.fs[p].size else 0;
    var newSize := match e case Splicing(off, data) => Max(size, off + |data|) case Resizing(n) => n;
    EditedSize(s, e);
    if e.Resizing? { ResizeNeverLoses(o.base, fs, a, o.delta.snaps, o.delta.undos, o.white, p, s, e.size); }
    var hash := if p in o.delta.fs then o.delta.fs[p].hash else None;
    SetRow(o.delta, p, EditedRow(o.base, o.delta.fs, o.white, p, mtime, newSize, hash));
    ok := EditRest(o, at == InDelta, size, newSize, p, e, mtime, s, fs);
    if ok {
      EditedTables(o.base, o.white, fs, a, o.delta.fs, o.delta.chunks, o.delta.snaps, o.delta.undos, p, e, mtime, s);
    }
  }

  /** The names and tables of an overlay. */
  datatype Layers = Layers(white: set<Path>, fs: Files, chunks: Chunks)

  ghost function LayersOf(o: Overlay): Layers
    reads o, o.delta
  {
    Layers(o.white, o.delta.fs, o.delta.chunks)
  }

  /** From `x` to `y` the edit `e` of the content `s` at `p` is done: the whiteouts over `p` are cleared, the
      Delta tables are the edited ones, and the overlay shows the new bytes. */
  ghost predicate EditDone(b: Base, x: Layers, y: Layers, p: Path, e: Edit, mtime: int, s: Bytes) {
    && y.white == Cleared(b.fs, x.white, p)
    && TablesEdited(b, y.white, x.fs, x.chunks, y.fs, y.chunks, p, e, mtime, s)
    && (p !in x.fs || x.fs[p].kind == File ==> ViewHolds(b, y.fs, y.chunks, y.white, p, Edited(s, e)))
  }

  twostate predicate Done(o: Overlay, p: Path, e: Edit, mtime: int, s: Bytes)
    reads o, o.delta
  {
    EditDone(o.base, old(LayersOf(o)), LayersOf(o), p, e, mtime, s)
  }

  lemma EditShown(b: Base, was: set<Path>, fs: Files, a: Chunks, y: Layers, p: Path, e: Edit, mtime: int, s: Bytes)
    requires y.white == Cleared(b.fs, was, p)
    requires TablesEdited(b, y.white, fs, a, y.fs, y.chunks, p, e, mtime, s)
    ensures EditDone(b, Layers(was, fs, a), y, p, e, mtime, s)
  {
  }

  /** The edit of a path whose whiteouts are already cleared, `was` before. A failed one puts tables and whiteouts
      back. */
  method EditOrRestore(o: Overlay, was: set<Path>, p: Path, e: Edit, mtime: int, ghost s: Bytes) returns (ok: bool)
    requires BaseOk(o.base) && Shaped(o.delta) && BlobsDecode(o.delta.dicts, o.delta.blobs) && o.delta.rules == []
    requires o.white == Cleared(o.base.fs, was, p)
    requires StartsFrom(o.base, o.delta.fs, o.delta.chunks, o.white, p, s) && Real(|s|, e)
    requires e.Resizing? ==> LookupFile(o.base.fs, o.delta.fs, o.white, p) != Missing
    modifies o`white, o.delta`fs, o.delta`chunks, o.delta`blobs, o.delta`logical
    ensures Shaped(o.delta) && BlobsDecode(o.delta.dicts, o.delta.blobs)
    ensures ok ==> EditDone(o.base, Layers(was, old(o.delta.fs), old(o.delta.chunks)), LayersOf(o), p, e, mtime, s)
    ensures ok ==> RowEdited(o.base.fs, o.white, old(o.delta.fs), o.delta.fs, p, mtime, Edited(s, e))
    ensures !ok ==> o.white == was && SameTables(o.delta)
    ensures CountsAfter(o.delta, Loses(old(o.delta.chunks), p, Edited(s, e), First(|s|, e), End(e)), ok)
  {
    var savedFs, savedChunks, savedBlobs, savedLogical := o.delta.fs, o.delta.chunks, o.delta.blobs, o.delta.logical;
    ghost var fs, a := o.delta.fs, o.delta.chunks;
    ok := EditFile(o, p, e, mtime, s);
    if ok {
      EditShown(o.base, was, fs, a, LayersOf(o), p, e, mtime, s);
      TablesRow(o.base, o.white, fs, a, o.delta.fs, o.delta.chunks, p, e, mtime, s);
    } else {
      o.white := was;
      PutBack(o.delta, savedFs, savedChunks, savedBlobs, savedLogical);
    }
  }

  /** Write `data` at `off` through the overlay, copying only the chunks it touches. On success the layered
      file is the old content spliced with the data; on any failure nothing changes. It fails or leaves the
      counts wrong exactly when a touched chunk is rewritten with its own bytes while nothing else has them. From
      wrong counts it does the same or fails: a later write to the same overlay still works on the right rows. */
  method WriteRangeLayered(o: Overlay, p: Path, off: nat, data: Bytes, mtime: int,
                           ghost s: Bytes) returns (r: Result<()>)
    requires BaseOk(o.base) && Shaped(o.delta) && BlobsDecode(o.delta.dicts, o.delta.blobs) && o.delta.rules == []
    requires StartsFrom(o.base, o.delta.fs, o.delta.chunks, Cleared(o.base.fs, o.white, p), p, s)
    modifies o`white, o.delta`fs, o.delta`chunks, o.delta`blobs, o.delta`logical
    ensures Shaped(o.delta) && BlobsDecode(o.delta.dicts, o.delta.blobs)
    ensures r.Err? || data == [] ==> Untouched(o)
    ensures r.Ok? && data != [] ==> Done(o, p, Splicing(off, data), mtime, s)
    ensures r.Ok? && data != [] ==>
      RowEdited(o.base.fs, o.white, old(o.delta.fs), o.delta.fs, p, mtime, Splice(s, off, data))
    ensures var e := Splicing(off, data);
      var lossy := data != [] && Loses(old(o.delta.chunks), p, Edited(s, e), First(|s|, e), End(e));
      var size := Max(SizeAt(o.base, old(o.delta.fs), old(o.white), p), off + |data|);
      && (r.Ok? || r == Err(Refusal) || r == Err(Corrupt))
      && (r == Err(Refusal) <==> if data == [] then Protected(o.base.rules, p) else !o.Allowed(p, size))
      && (r == Err(Refusal) || (if data == [] then r.Ok? else CountsAfter(o.delta, lossy, r.Ok?)))
      && (old(Sound(o.delta)) && r.Ok? ==> (Sound(o.delta) <==> !lossy))
  {
    if Protected(o.base.rules, p) { return Err(Refusal); }
    if data == [] { return Ok(()); }
    var size := SizeAt(o.base, o.delta.fs, o.white, p);
    if !o.Allowed(p, Max(size, off + |data|)) { return Err(Refusal); }
    var saved := o.white;
    o.ClearWhiteoutsFor(p);
    var ok := EditOrRestore(o, saved, p, Splicing(off, data), mtime, s);
    r := if ok then Ok(()) else Err(Corrupt);
  }

  /** The size of the file the overlay shows at `p`, 0 when there is none. */
  function SizeAt(b: Base, fs: Files, white: set<Path>, p: Path): nat {
    match LookupFile(b.fs, fs, white, p)
    case InDelta => fs[p].size
    case InBase => b.fs[p].size
    case Missing => 0
  }

  /** It is the size of the content the overlay shows there. */
  lemma SizeAtIs(b: Base, fs: Files, chunks: Chunks, white: set<Path>, p: Path, s: Bytes)
    ensures ViewHolds(b, fs, chunks, white, p, s) ==> SizeAt(b, fs, white, p) == |s|
    ensures LookupFile(b.fs, fs, white, p) == Missing ==> SizeAt(b, fs, white, p) == 0
  {
  }

  /** Cut or zero-extend a file through the overlay. Exact counts stay exact; from wrong ones it may fail, with
      nothing changed. */
  method TruncateRangeLayered(o: Overlay, p: Path, n: nat, mtime: int, ghost s: Bytes) returns (r: Result<()>)
    requires BaseOk(o.base) && Shaped(o.delta) && BlobsDecode(o.delta.dicts, o.delta.blobs) && o.delta.rules == []
    requires StartsFrom(o.base, o.delta.fs, o.delta.chunks, Cleared(o.base.fs, o.white, p), p, s)
    modifies o`white, o.delta`fs, o.delta`chunks, o.delta`blobs, o.delta`logical
    ensures Shaped(o.delta) && BlobsDecode(o.delta.dicts, o.delta.blobs) && (old(Sound(o.delta)) ==> Sound(o.delta))
    ensures r.Err? ==> Untouched(o) && r != Err(NotAFile)
    ensures r == Err(Refusal) <==> Protected(o.base.rules, p)
    ensures r == Err(NotFound) <==>
        && !Protected(o.base.rules, p)
        && LookupFile(o.base.fs, old(o.delta.fs), Cleared(o.base.fs, old(o.white), p), p) == Missing
    ensures old(RefOk(o.delta.chunks, o.delta.blobs)) ==> r.Ok? || r == Err(Refusal) || r == Err(NotFound)
    ensures r.Ok? && n == |s| ==>
        && o.white == Cleared(o.base.fs, old(o.white), p) && o.delta.fs == old(o.delta.fs)
        && o.delta.chunks == old(o.delta.chunks)
    ensures r.Ok? && n != |s| ==> Done(o, p, Resizing(n), mtime, s)
    ensures r.Ok? && n != |s| ==>
      RowEdited(o.base.fs, o.white, old(o.delta.fs), o.delta.fs, p, mtime, Resize(s, n))
  {
    if Protected(o.base.rules, p) { return Err(Refusal); }
    var saved := o.white;
    o.ClearWhiteoutsFor(p);
    var at := LookupFile(o.base.fs, o.delta.fs, o.white, p);
    if at == Missing {
      o.white := saved;
      return Err(NotFound);
    }
    var size := if at == InDelta then o.delta.fs[p].size else o.base.fs[p].size;
    if n == size { return Ok(()); }
    ResizeNeverLoses(o.base, o.delta.fs, o.delta.chunks, o.delta.snaps, o.delta.undos, o.white, p, s, n);
    var ok := EditOrRestore(o, saved, p, Resizing(n), mtime, s);
    r := if ok then Ok(()) else Err(Corrupt);
  }

  // ------------------------------------------------------------------ what the edits mean for the view

  /** Where an edit starts from: what the overlay showed, nothing if it showed no file. The one exception is a
      Base file hidden by a whiteout and not shadowed: clearing the whiteout brings its old content back. */
  lemma StartsFromViewIff(b: Base, fs: Files, chunks: Chunks, white: set<Path>, p: Path, s: Bytes)
    requires [] !in white
    ensures var hiddenFile := p !in fs && p in b.fs && b.fs[p].kind == File && Hidden(white, p);
      StartsFrom(b, fs, chunks, Cleared(b.fs, white, p), p, s) <==>
        if hiddenFile then FileHolds(b.fs, b.chunks, p, s)
        else if LookupFile(b.fs, fs, white, p) == Missing then s == []
        else ViewHolds(b, fs, chunks, white, p, s)
  {
    ClearedShows(b.fs, white, p, p);
  }

  /** Only the chunks enter the Delta that a write overlaps, from the old end if it starts past it, or that hold
      bytes from the smaller size of a resize up to its new end. */
  lemma OnlyTouchedEnter(a: Chunks, d: Chunks, p: Path, s: Bytes, e: Edit, slot: Slot)
    requires EditedRows(a, d, p, Edited(s, e), First(|s|, e), End(e), e.Resizing?) && slot in d && slot !in a
    ensures slot.owner == Live && slot.path == p
    ensures match e
      case Splicing(off, data) =>
        Min(off, |s|) < 65536 * (slot.idx + 1) && 65536 * slot.idx < off + |data|
      case Resizing(n) => Min(n, |s|) < 65536 * (slot.idx + 1) && 65536 * slot.idx < n
  {
    var lo, hi := First(|s|, e), End(e);
    var m :| Frame(a, m, p, lo, hi) && (if e.Resizing? then TailCut(m, d, p, hi) else d == m);
    assert FrameAt(a, m, p, lo, hi, slot);
    assert e.Resizing? ==> TailCutAt(m, d, p, hi, slot);
  }
}
