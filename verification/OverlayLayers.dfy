/** What every overlay operation keeps: each Delta file, whatever mix of its own and Base chunks it has, holds
    one content. So an edit always has a content to start from. */
module OverlayLayers {
  import opened Tables
  import opened Chunking
  import opened Trees
  import opened Read
  import opened Store
  import opened Ranges
  import opened OverlayNames
  import opened Overlays
  import opened OverlayFiles
  import opened OverlayWrites

  ghost predicate LayerOkAt(b: Base, fs: Files, chunks: Chunks, q: Path) {
    q in fs && fs[q].kind == File ==> exists s :: LayeredHolds(b, fs, chunks, q, s)
  }

  ghost predicate LayersOk(b: Base, fs: Files, chunks: Chunks) {
    forall q {:trigger LayerOkAt(b, fs, chunks, q)} :: LayerOkAt(b, fs, chunks, q)
  }

  ghost predicate BaseFileAt(b: Base, q: Path) {
    q in b.fs && b.fs[q].kind == File ==> exists s :: FileHolds(b.fs, b.chunks, q, s)
  }

  /** Every file of the Base is in canonical layout. */
  ghost predicate BaseCanonical(b: Base) {
    forall q {:trigger BaseFileAt(b, q)} :: BaseFileAt(b, q)
  }

  /** An edit always starts from some content, whatever the whiteouts are. */
  lemma StartExists(b: Base, fs: Files, chunks: Chunks, white: set<Path>, p: Path)
    requires LayersOk(b, fs, chunks) && BaseCanonical(b)
    ensures exists s :: StartsFrom(b, fs, chunks, white, p, s)
  {
    match LookupFile(b.fs, fs, white, p)
    case InDelta =>
      assert LayerOkAt(b, fs, chunks, p);
      var s :| LayeredHolds(b, fs, chunks, p, s);
      assert StartsFrom(b, fs, chunks, white, p, s);
    case InBase =>
      assert BaseFileAt(b, p);
      var s :| FileHolds(b.fs, b.chunks, p, s);
      assert StartsFrom(b, fs, chunks, white, p, s);
    case Missing =>
      assert StartsFrom(b, fs, chunks, white, p, []);
  }

  /** A layered file holds one content only. */
  lemma LayeredOne(b: Base, fs: Files, chunks: Chunks, p: Path, s: Bytes, t: Bytes)
    requires LayeredHolds(b, fs, chunks, p, s) && LayeredHolds(b, fs, chunks, p, t)
    ensures s == t
  {
    forall i: nat | i < NumChunks(|s|) ensures Piece(s, i) == Piece(t, i) {
      assert LayerAt(b, chunks, p, s, i) && LayerAt(b, chunks, p, t, i);
    }
    PiecesDetermine(s, t);
  }

  /** An edit starts from one content only. */
  lemma StartOne(b: Base, fs: Files, chunks: Chunks, white: set<Path>, p: Path, s: Bytes, t: Bytes)
    requires StartsFrom(b, fs, chunks, white, p, s) && StartsFrom(b, fs, chunks, white, p, t)
    ensures s == t
  {
    match LookupFile(b.fs, fs, white, p)
    case InDelta => LayeredOne(b, fs, chunks, p, s, t);
    case InBase => HoldsOne(b.fs, b.chunks, p, s, t);
    case Missing =>
  }

  lemma PiecesDetermine(s: Bytes, t: Bytes)
    requires |s| == |t| && forall i: nat :: i < NumChunks(|s|) ==> Piece(s, i) == Piece(t, i)
    ensures s == t
  {
    forall j | 0 <= j < |s| ensures s[j] == t[j] {
      var i := j / CHUNK_SIZE;
      assert i < NumChunks(|s|) && Piece(s, i) == Piece(t, i);
      assert s[j] == Piece(s, i)[j - i * CHUNK_SIZE] && t[j] == Piece(t, i)[j - i * CHUNK_SIZE];
    }
  }

  // ------------------------------------------------------------------ two edits in turn

  /** After an edit of a file the Delta has the file, with the new bytes. */
  lemma EditHolds(b: Base, x: Layers, y: Layers, p: Path, e: Edit, mtime: int, s: Bytes)
    requires EditDone(b, x, y, p, e, mtime, s) && (p !in x.fs || x.fs[p].kind == File)
    ensures p in y.fs && y.fs[p].kind == File && LayeredHolds(b, y.fs, y.chunks, p, Edited(s, e))
    ensures ViewHolds(b, y.fs, y.chunks, y.white, p, Edited(s, e))
  {
  }

  /** No byte past an earlier truncation comes back, whatever chunks the Base has at `p`: after a cut to `n` and
      a later write past `n`, the overlay shows the old bytes up to `n`, zeros up to the write, and the data. */
  lemma NothingReappears(b: Base, x: Layers, y: Layers, z: Layers, p: Path, s: Bytes, cut: Bytes, n: nat, off: nat,
                         data: Bytes, m: int, m': int)
    requires p !in x.fs || x.fs[p].kind == File
    requires n <= |s| && n <= off && data != []
    requires EditDone(b, x, y, p, Resizing(n), m, s)
    requires StartsFrom(b, y.fs, y.chunks, Cleared(b.fs, y.white, p), p, cut)
    requires EditDone(b, y, z, p, Splicing(off, data), m', cut)
    ensures cut == s[..n]
    ensures ViewHolds(b, z.fs, z.chunks, z.white, p, s[..n] + Zeros(off - n) + data)
  {
    EditHolds(b, x, y, p, Resizing(n), m, s);
    LayeredOne(b, y.fs, y.chunks, p, cut, s[..n]);
    EditHolds(b, y, z, p, Splicing(off, data), m', cut);
    SplicedZeros(s, cut, n, off, data);
  }

  lemma SplicedZeros(s: Bytes, cut: Bytes, n: nat, off: nat, data: Bytes)
    requires n <= |s| && n <= off && data != [] && cut == s[..n]
    ensures Splice(cut, off, data) == s[..n] + Zeros(off - n) + data
  {
    var t, want := Splice(cut, off, data), s[..n] + Zeros(off - n) + data;
    SpliceAt(cut, off, data);
    assert |t| == |want|;
    forall j | 0 <= j < |t| ensures t[j] == want[j] {}
    assert t == want;
  }

  // ------------------------------------------------------------------ what the operations keep

  ghost predicate SameFileAt(fs: Files, a: Chunks, fs': Files, d: Chunks, q: Path) {
    && q in fs && q in fs' && fs'[q] == fs[q]
    && forall i: nat {:trigger SameSlot(d, Live, a, Live, q, i)} :: SameSlot(d, Live, a, Live, q, i)
  }

  /** A file whose row and chunk rows did not change still holds its content. */
  lemma SameFileHolds(b: Base, fs: Files, a: Chunks, fs': Files, d: Chunks, q: Path)
    requires LayerOkAt(b, fs, a, q) && SameFileAt(fs, a, fs', d, q)
    ensures LayerOkAt(b, fs', d, q)
    ensures forall s {:trigger LayeredHolds(b, fs, a, q, s)} ::
      LayeredHolds(b, fs, a, q, s) ==> LayeredHolds(b, fs', d, q, s)
  {
    forall s {:trigger LayeredHolds(b, fs, a, q, s)}
      | LayeredHolds(b, fs, a, q, s)
      ensures LayeredHolds(b, fs', d, q, s) {
      forall i: nat ensures LayerAt(b, d, q, s, i) {
        assert LayerAt(b, a, q, s, i) && SameSlot(d, Live, a, Live, q, i);
      }
    }
  }

  lemma OthersSameFile(fs: Files, a: Chunks, d: Chunks, p: Path, row: Row, q: Path)
    requires Others(a, d, p) && q != p && q in fs
    ensures SameFileAt(fs, a, fs[p := row], d, q)
  {
    forall i: nat ensures SameSlot(d, Live, a, Live, q, i) { assert OthersAt(a, d, p, Slot(Live, q, i)); }
  }

  /** A ranged write or truncate keeps every Delta file one content, and all other files their own. */
  lemma EditKeepsLayers(b: Base, fs: Files, a: Chunks, d: Chunks, p: Path, row: Row, t: Bytes)
    requires LayersOk(b, fs, a) && Others(a, d, p)
    requires row.kind == File ==> LayeredHolds(b, fs[p := row], d, p, t)
    ensures LayersOk(b, fs[p := row], d)
  {
    var f := fs[p := row];
    forall q ensures LayerOkAt(b, f, d, q) {
      assert LayerOkAt(b, fs, a, q);
      if q != p && q in fs { OthersSameFile(fs, a, d, p, row, q); SameFileHolds(b, fs, a, f, d, q); }
    }
  }

  /** So does a whole-path write: a file is the pieces of its data, parents are directories. */
  lemma WriteKeepsLayers(b: Base, fs: Files, a: Chunks, d: Chunks, p: Path, row: Row, dir: Row, data: Bytes)
    requires LayersOk(b, fs, a) && Filled(a, d, p, data, NumChunks(|data|))
    requires dir.kind == Dir && (row.kind == File ==> row.size == |data|)
    ensures LayersOk(b, Written(fs, p, row, dir), d)
    ensures row.kind == File ==> LayeredHolds(b, Written(fs, p, row, dir), d, p, data)
  {
    var f := Written(fs, p, row, dir);
    forall i: nat ensures LayerAt(b, d, p, data, i) {
      assert FilledAt(a, d, p, data, NumChunks(|data|), Slot(Live, p, i));
    }
    forall q ensures LayerOkAt(b, f, d, q) {
      assert LayerOkAt(b, fs, a, q);
      if q != p && q in fs {
        forall i: nat ensures SameSlot(d, Live, a, Live, q, i) {
          assert FilledAt(a, d, p, data, NumChunks(|data|), Slot(Live, q, i));
        }
        SameFileHolds(b, fs, a, f, d, q);
      } else if q == p && row.kind == File {
        assert LayeredHolds(b, f, d, p, data);
      }
    }
  }

  /** And a removal. */
  lemma RemoveKeepsLayers(b: Base, fs: Files, a: Chunks, d: Chunks, p: Path)
    requires LayersOk(b, fs, a) && Dropped(a, d, Live, fs.Keys - Removed(fs, p).Keys)
    ensures LayersOk(b, Removed(fs, p), d)
  {
    var f := Removed(fs, p);
    forall q ensures LayerOkAt(b, f, d, q) {
      assert LayerOkAt(b, fs, a, q);
      if q in f {
        forall i: nat ensures SameSlot(d, Live, a, Live, q, i) {
          assert DroppedAt(a, d, Live, fs.Keys - f.Keys, Slot(Live, q, i));
        }
        SameFileHolds(b, fs, a, f, d, q);
      }
    }
  }

  // ------------------------------------------------------------------ every run

  datatype LayerOp =
    | Whole(path: Path, row: Row, dir: Row, data: Bytes)     // a file, directory or link written over the path
    | Ranged(path: Path, edit: Edit, mtime: int, from: Bytes) // a ranged write or truncate of content `from`
    | Same(path: Path)                                        // a truncate to the present size
    | Gone(path: Path)

  /** `op` leads from `x` to `y`: what the overlay's methods state of their success. */
  ghost predicate StepOf(b: Base, x: Layers, y: Layers, op: LayerOp) {
    match op
    case Whole(p, row, dir, data) =>
      && dir.kind == Dir && (row.kind == File ==> row.size == |data|)
      && y.white == Cleared(b.fs, x.white, p) && y.fs == Written(x.fs, p, row, dir)
      && Filled(x.chunks, y.chunks, p, data, NumChunks(|data|))
    case Ranged(p, e, mtime, s) =>
      StartsFrom(b, x.fs, x.chunks, Cleared(b.fs, x.white, p), p, s) && EditDone(b, x, y, p, e, mtime, s)
    case Same(p) => y.white == Cleared(b.fs, x.white, p) && y.fs == x.fs && y.chunks == x.chunks
    case Gone(p) =>
      && y.white == Whited(b.fs, x.white, p) && y.fs == Removed(x.fs, p)
      && Dropped(x.chunks, y.chunks, Live, x.fs.Keys - y.fs.Keys)
  }

  lemma StepKeepsLayers(b: Base, x: Layers, y: Layers, op: LayerOp)
    requires LayersOk(b, x.fs, x.chunks) && StepOf(b, x, y, op)
    ensures LayersOk(b, y.fs, y.chunks)
  {
    match op
    case Whole(p, row, dir, data) => WriteKeepsLayers(b, x.fs, x.chunks, y.chunks, p, row, dir, data);
    case Ranged(p, e, mtime, s) => EditKeepsLayers(b, x.fs, x.chunks, y.chunks, p, y.fs[p], Edited(s, e));
    case Same(p) =>
    case Gone(p) => RemoveKeepsLayers(b, x.fs, x.chunks, y.chunks, p);
  }

  lemma StepKeepsShown(b: Base, x: Layers, y: Layers, op: LayerOp)
    requires Shown(x.fs, x.white) && StepOf(b, x, y, op) && op != Gone([])
    ensures Shown(y.fs, y.white)
  {
    match op
    case Whole(p, row, dir, data) => WriteShows(b.fs, x.fs, x.white, p, row, dir);
    case Ranged(p, e, mtime, s) => EditShows(b.fs, x.fs, x.white, p, y.fs[p]);
    case Same(p) =>
      ClearKeepsRoot(b.fs, x.white, p);
      forall q ensures ShownAt(y.fs, y.white, q) {
        assert ShownAt(x.fs, x.white, q);
        if q in x.fs { ClearedHidesNothing(b.fs, x.white, p, q); }
      }
    case Gone(p) => RemoveShows(b.fs, x.fs, x.white, p);
  }

  /** The states `xs` are a run of the operations `ops`. */
  ghost predicate RunOf(b: Base, xs: seq<Layers>, ops: seq<LayerOp>) {
    |xs| == |ops| + 1 && forall i {:trigger ops[i]} :: 0 <= i < |ops| ==> StepOf(b, xs[i], xs[i + 1], ops[i])
  }

  ghost predicate HasStart(b: Base, x: Layers, white: set<Path>, p: Path) {
    exists s :: StartsFrom(b, x.fs, x.chunks, white, p, s)
  }

  /** None of the operations removes the root. */
  ghost predicate RootStays(ops: seq<LayerOp>) {
    forall i {:trigger ops[i]} :: 0 <= i < |ops| ==> ops[i] != Gone([])
  }

  /** Over every run of operations every Delta file holds one content in every state, and so an edit of any path
      always has a content to start from. If none was a removal of the root, no Delta row is hidden either. */
  lemma {:induction false} OkOverRuns(b: Base, xs: seq<Layers>, ops: seq<LayerOp>, n: nat)
    requires RunOf(b, xs, ops) && LayersOk(b, xs[0].fs, xs[0].chunks) && BaseCanonical(b) && n < |xs|
    ensures LayersOk(b, xs[n].fs, xs[n].chunks)
    ensures Shown(xs[0].fs, xs[0].white) && RootStays(ops[..n]) ==> Shown(xs[n].fs, xs[n].white)
    ensures forall p, white {:trigger HasStart(b, xs[n], white, p)} :: HasStart(b, xs[n], white, p)
    decreases n
  {
    if n > 0 {
      OkOverRuns(b, xs, ops, n - 1);
      StepKeepsLayers(b, xs[n - 1], xs[n], ops[n - 1]);
      if Shown(xs[0].fs, xs[0].white) && RootStays(ops[..n]) {
        assert ops[..n][n - 1] == ops[n - 1];
        forall i {:trigger ops[..n - 1][i]} | 0 <= i < n - 1 ensures ops[..n - 1][i] != Gone([]) {
          assert ops[..n - 1][i] == ops[..n][i];
        }
        StepKeepsShown(b, xs[n - 1], xs[n], ops[n - 1]);
      }
    }
    forall p, white ensures HasStart(b, xs[n], white, p) {
      StartExists(b, xs[n].fs, xs[n].chunks, white, p);
    }
  }

  // ------------------------------------------------------------------ one more step

  lemma RunOfMore(b: Base, xs: seq<Layers>, ops: seq<LayerOp>, y: Layers, op: LayerOp)
    requires RunOf(b, xs, ops) && StepOf(b, xs[|xs| - 1], y, op)
    ensures RunOf(b, xs + [y], ops + [op])
  {
    var ys, more := xs + [y], ops + [op];
    forall i {:trigger more[i]} | 0 <= i < |more| ensures StepOf(b, ys[i], ys[i + 1], more[i]) {
      if i < |ops| { assert more[i] == ops[i] && ys[i] == xs[i] && ys[i + 1] == xs[i + 1]; }
    }
  }

  /** The operation rewrites a chunk with its own bytes while that is the only row that has them. */
  ghost predicate Lossy(x: Layers, op: LayerOp) {
    op.Ranged? && Loses(x.chunks, op.path, Edited(op.from, op.edit), First(|op.from|, op.edit), End(op.edit))
  }

  /** No operation of the run was lossy. */
  ghost predicate Lossless(xs: seq<Layers>, ops: seq<LayerOp>) {
    forall i {:trigger ops[i]} :: 0 <= i < |ops| && i < |xs| ==> !Lossy(xs[i], ops[i])
  }

  lemma LosslessMore(xs: seq<Layers>, ops: seq<LayerOp>, y: Layers, op: LayerOp)
    requires |xs| == |ops| + 1
    ensures Lossless(xs + [y], ops + [op]) <==> Lossless(xs, ops) && !Lossy(xs[|xs| - 1], op)
  {
    var ys, more := xs + [y], ops + [op];
    assert more[|ops|] == op && ys[|ops|] == xs[|xs| - 1];
    assert forall i {:trigger ops[i]} :: 0 <= i < |ops| ==> more[i] == ops[i] && ys[i] == xs[i];
  }
}
