/** Moving rows to new paths, one `UPDATE` after the other, as a mount rename does: the row, by foreign key
    its pending mark, and its chunk rows. */
module Moves {
  import opened Tables
  import opened Trees
  import opened Policy
  import opened Connections
  import opened Views
  import opened Rows
  import Worlds

  // ------------------------------------------------------------------ chunk rows of one path

  function MovedSlot(s: Slot, from: Path, to: Path): Slot {
    if s.owner == Live && s.path == from then s.(path := to) else s
  }

  ghost predicate MovedAt(a: Chunks, b: Chunks, from: Path, to: Path, s: Slot) {
    if s.owner == Live && s.path == to
    then (s in b <==> Slot(Live, from, s.idx) in a) && (s in b ==> b[s] == a[Slot(Live, from, s.idx)])
    else if s.owner == Live && s.path == from then s !in b
    else (s in b <==> s in a) && (s in b ==> b[s] == a[s])
  }

  /** `b` is `a` with the live chunk rows of `from` at `to`. */
  ghost predicate Moved(a: Chunks, b: Chunks, from: Path, to: Path) {
    forall s {:trigger MovedAt(a, b, from, to, s)} :: MovedAt(a, b, from, to, s)
  }

  lemma {:induction false} ImageSize(x: set<Slot>, from: Path, to: Path)
    requires forall s :: s in x ==> !(s.owner == Live && s.path == to)
    ensures |set s | s in x :: MovedSlot(s, from, to)| == |x|
    decreases |x|
  {
    var image := set s | s in x :: MovedSlot(s, from, to);
    if x != {} {
      var s :| s in x;
      var rest := x - {s};
      ImageSize(rest, from, to);
      var less := set r | r in rest :: MovedSlot(r, from, to);
      assert MovedSlot(s, from, to) !in less;
      assert image == less + {MovedSlot(s, from, to)} by {
        forall r ensures r in image <==> r in less + {MovedSlot(s, from, to)} {
          if r in image {
            var q :| q in x && MovedSlot(q, from, to) == r;
            if q != s { assert q in rest; }
          }
        }
      }
    }
  }

  /** Moving rows changes no count. */
  lemma MoveCount(a: Chunks, b: Chunks, from: Path, to: Path, k: Key)
    requires Moved(a, b, from, to) && from != to && Vacant(a, Live, {to})
    ensures Count(b, k) == Count(a, k)
  {
    var image := set s | s in Refs(a, k) :: MovedSlot(s, from, to);
    forall s | s in Refs(a, k) ensures !(s.owner == Live && s.path == to) { assert DroppedAt(a, a, Live, {to}, s); }
    ImageSize(Refs(a, k), from, to);
    forall r ensures r in image <==> r in Refs(b, k) {
      assert MovedAt(a, b, from, to, r);
      assert DroppedAt(a, a, Live, {to}, r);
      if r in Refs(b, k) {
        var q := if r.owner == Live && r.path == to then Slot(Live, from, r.idx) else r;
        assert q in Refs(a, k) && MovedSlot(q, from, to) == r;
      }
    }
    assert image == Refs(b, k);
  }

  lemma MoveCore(a: Chunks, b: Chunks, blobs: Blobs, from: Path, to: Path)
    requires Moved(a, b, from, to) && from != to && Vacant(a, Live, {to}) && RefOk(a, blobs)
    ensures RefOk(b, blobs) && Idle(b, blobs) == Idle(a, blobs)
  {
    forall k ensures Count(b, k) == Count(a, k) { MoveCount(a, b, from, to, k); }
    forall s ensures HasBlob(b, blobs, s) {
      assert MovedAt(a, b, from, to, s);
      assert HasBlob(a, blobs, s) && HasBlob(a, blobs, Slot(Live, from, s.idx));
    }
  }

  /** `UPDATE vm_file_chunks SET path` from one path to another that has no chunk rows. */
  method MoveSlots(c: Connection, from: Path, to: Path)
    requires Core(c.chunks, c.blobs, c.dicts) && from != to && Vacant(c.chunks, Live, {to})
    modifies c`chunks
    ensures Core(c.chunks, c.blobs, c.dicts) && Idle(c.chunks, c.blobs) == old(Idle(c.chunks, c.blobs))
    ensures Moved(old(c.chunks), c.chunks, from, to)
  {
    ghost var a := c.chunks;
    var gone := set s | s in c.chunks && s.owner == Live && s.path == from;
    var rows := map s | s in gone :: s.(path := to) := c.chunks[s];
    c.chunks := (c.chunks - gone) + rows;
    forall s ensures MovedAt(a, c.chunks, from, to, s) {
      assert DroppedAt(a, a, Live, {to}, s);
      if s.owner == Live && s.path == to && Slot(Live, from, s.idx) in a {
        assert Slot(Live, from, s.idx).(path := to) == s;
      }
    }
    MoveCore(a, c.chunks, c.blobs, from, to);
  }

  // ------------------------------------------------------------------ one row

  /** An `UPDATE` of a row's path is refused when either side is protected, when the size rules refuse the row
      at its new path, or when the new path is taken. */
  predicate MoveRefused(rules: seq<Rule>, fs: Files, logical: int, from: Path, to: Path)
    requires from in fs
  {
    Protected(rules, from) || Refused(rules, fs, logical, to, fs[from]) || (to in fs && to != from)
  }

  function MovedFiles(fs: Files, from: Path, to: Path): Files
    requires from in fs
  {
    (fs - {from})[to := fs[from]]
  }

  function MovedDirty(dirty: set<Path>, from: Path, to: Path): set<Path> {
    if from in dirty then dirty - {from} + {to} else dirty
  }

  lemma MoveRooted(fs: Files, a: Chunks, b: Chunks, snaps: Snapshots, undos: Undos, from: Path, to: Path)
    requires Rooted(fs, a, snaps, undos) && from in fs && Moved(a, b, from, to)
    ensures Rooted(MovedFiles(fs, from, to), b, snaps, undos)
  {
    var f := MovedFiles(fs, from, to);
    forall s ensures RootedAt(f, b, snaps, undos, s) {
      assert RootedAt(fs, a, snaps, undos, s);
      assert MovedAt(a, b, from, to, s);
    }
  }

  lemma MoveTotal(fs: Files, from: Path, to: Path)
    requires from in fs && (to !in fs || to == from)
    ensures Total(MovedFiles(fs, from, to)) == Total(fs)
  {
    TotalWithout(fs, from);
    TotalWith(fs - {from}, to, fs[from]);
  }

  /** Move one row, its pending mark and its chunk rows. */
  method MovePath(c: Connection, from: Path, to: Path) returns (ok: bool)
    requires Sound(c) && from in c.fs
    modifies c`fs, c`chunks, c`dirty
    ensures Sound(c)
    ensures ok <==> !MoveRefused(c.rules, old(c.fs), c.logical, from, to)
    ensures !ok ==> c.fs == old(c.fs) && c.chunks == old(c.chunks) && c.dirty == old(c.dirty)
    ensures ok ==> c.fs == MovedFiles(old(c.fs), from, to) && c.dirty == MovedDirty(old(c.dirty), from, to)
    ensures ok ==> Moved(old(c.chunks), c.chunks, from, to) && (to !in old(c.fs) || to == from)
  {
    ok := !MoveRefused(c.rules, c.fs, c.logical, from, to);
    if !ok { return; }
    ghost var fs, chunks := c.fs, c.chunks;
    MoveTotal(fs, from, to);
    if from != to {
      NoRowVacant(fs, chunks, c.snaps, c.undos, {to});
      MoveSlots(c, from, to);
    } else {
      forall s ensures MovedAt(chunks, chunks, from, to, s) {}
    }
    c.fs := MovedFiles(c.fs, from, to);
    c.dirty := MovedDirty(c.dirty, from, to);
    MoveRooted(fs, chunks, c.chunks, c.snaps, c.undos, from, to);
  }

  // ------------------------------------------------------------------ many rows, one after the other

  datatype Move = Move(from: Path, to: Path)

  ghost predicate RowMovedAt(fs: Files, fs': Files, gone: set<Path>, back: map<Path, Path>, q: Path) {
    if q in back then back[q] in fs && q in fs' && fs'[q] == fs[back[q]]
    else if q in gone then q !in fs'
    else (q in fs' <==> q in fs) && (q in fs ==> fs'[q] == fs[q])
  }

  ghost predicate SlotMovedAt(a: Chunks, b: Chunks, gone: set<Path>, back: map<Path, Path>, s: Slot) {
    if s.owner == Live && s.path in back then SameRow(b, s, a, Slot(Live, back[s.path], s.idx))
    else if s.owner == Live && s.path in gone then s !in b
    else SameRow(b, s, a, s)
  }

  ghost predicate SameRow(b: Chunks, s: Slot, a: Chunks, r: Slot) {
    (s in b <==> r in a) && (s in b ==> b[s] == a[r])
  }

  ghost predicate DirtyMovedAt(dirty: set<Path>, dirty': set<Path>, gone: set<Path>, back: map<Path, Path>, q: Path) {
    q in dirty' <==> if q in back then back[q] in dirty else q in dirty && q !in gone
  }

  /** The tables after the rows `gone` moved, all at once: the row at `q` is the one that was at `back[q]`. */
  ghost predicate AllMoved(fs: Files, a: Chunks, dirty: set<Path>, fs': Files, b: Chunks, dirty': set<Path>,
                           gone: set<Path>, back: map<Path, Path>) {
    && (forall q {:trigger RowMovedAt(fs, fs', gone, back, q)} :: RowMovedAt(fs, fs', gone, back, q))
    && (forall s {:trigger SlotMovedAt(a, b, gone, back, s)} :: SlotMovedAt(a, b, gone, back, s))
    && (forall q {:trigger DirtyMovedAt(dirty, dirty', gone, back, q)} :: DirtyMovedAt(dirty, dirty', gone, back, q))
  }

  lemma NoneMoved(fs: Files, a: Chunks, dirty: set<Path>)
    ensures AllMoved(fs, a, dirty, fs, a, dirty, {}, map[])
  {
    forall q ensures RowMovedAt(fs, fs, {}, map[], q) && DirtyMovedAt(dirty, dirty, {}, map[], q) {}
    forall s ensures SlotMovedAt(a, a, {}, map[], s) {}
  }

  lemma OneMoreMoved(fs: Files, a: Chunks, dirty: set<Path>, m: Files, b: Chunks, d: set<Path>, b': Chunks,
                     gone: set<Path>, back: map<Path, Path>, from: Path, to: Path)
    requires AllMoved(fs, a, dirty, m, b, d, gone, back) && (forall p {:trigger p in d} :: p in d ==> p in m)
    requires from in m && from !in gone && from !in back && (to !in m || to == from) && Moved(b, b', from, to)
    ensures AllMoved(fs, a, dirty, MovedFiles(m, from, to), b', MovedDirty(d, from, to), gone + {from},
      back[to := from])
  {
    var g, k := gone + {from}, back[to := from];
    var m', d' := MovedFiles(m, from, to), MovedDirty(d, from, to);
    assert RowMovedAt(fs, m, gone, back, from) && RowMovedAt(fs, m, gone, back, to);
    assert DirtyMovedAt(dirty, d, gone, back, from);
    forall q ensures RowMovedAt(fs, m', g, k, q) && DirtyMovedAt(dirty, d', g, k, q) {
      assert RowMovedAt(fs, m, gone, back, q) && DirtyMovedAt(dirty, d, gone, back, q);
    }
    forall s ensures SlotMovedAt(a, b', g, k, s) {
      assert SlotMovedAt(a, b, gone, back, s) && SlotMovedAt(a, b, gone, back, Slot(Live, from, s.idx));
      assert MovedAt(b, b', from, to, s);
    }
  }

  /** Rows still to move are where they were. */
  ghost predicate Pending(fs: Files, gone: set<Path>, back: map<Path, Path>, moves: seq<Move>, k: nat) {
    forall j {:trigger moves[j]} ::
      k <= j < |moves| ==> moves[j].from in fs && moves[j].from !in gone && moves[j].from !in back
  }

  ghost predicate DistinctMoves(fs: Files, moves: seq<Move>) {
    && (forall j {:trigger moves[j]} :: 0 <= j < |moves| ==> moves[j].from in fs)
    && (forall i, j {:trigger moves[i], moves[j]} :: 0 <= i < j < |moves| ==> moves[i].from != moves[j].from)
  }

  /** Where each row goes, as one map. */
  ghost function MoveMap(moves: seq<Move>, k: nat): map<Path, Path>
    requires k <= |moves|
  {
    if k == 0 then map[] else MoveMap(moves, k - 1)[moves[k - 1].from := moves[k - 1].to]
  }

  ghost predicate InverseAt(mv: map<Path, Path>, gone: set<Path>, back: map<Path, Path>, p: Path) {
    && (p in gone <==> p in mv)
    && (p in mv ==> mv[p] in back && back[mv[p]] == p)
    && (p in back ==> back[p] in mv && mv[back[p]] == p)
  }

  /** `mv` moves the rows `gone`, and `back` is its inverse. */
  ghost predicate Inverse(mv: map<Path, Path>, gone: set<Path>, back: map<Path, Path>) {
    forall p {:trigger InverseAt(mv, gone, back, p)} :: InverseAt(mv, gone, back, p)
  }

  lemma InverseMore(mv: map<Path, Path>, gone: set<Path>, back: map<Path, Path>, from: Path, to: Path)
    requires Inverse(mv, gone, back) && from !in gone && to !in back
    ensures Inverse(mv[from := to], gone + {from}, back[to := from])
  {
    var m, g, k := mv[from := to], gone + {from}, back[to := from];
    assert InverseAt(mv, gone, back, from);
    forall p ensures InverseAt(m, g, k, p) {
      assert InverseAt(mv, gone, back, p);
      if p in back { assert InverseAt(mv, gone, back, back[p]); }
    }
  }

  /** No row lands on one that stays. */
  ghost predicate Free(fs: Files, gone: set<Path>, back: map<Path, Path>) {
    forall q {:trigger q in back} :: q in back ==> q !in fs || q in gone
  }

  lemma PendingMore(fs: Files, a: Chunks, dirty: set<Path>, m: Files, b: Chunks, d: set<Path>, gone: set<Path>,
                    back: map<Path, Path>, moves: seq<Move>, k: nat)
    requires AllMoved(fs, a, dirty, m, b, d, gone, back) && DistinctMoves(fs, moves) && k < |moves|
    requires Pending(fs, gone, back, moves, k) && (moves[k].to !in m || moves[k].to == moves[k].from)
    ensures Pending(fs, gone + {moves[k].from}, back[moves[k].to := moves[k].from], moves, k + 1)
    ensures moves[k].to !in back
    ensures Free(fs, gone, back) ==> Free(fs, gone + {moves[k].from}, back[moves[k].to := moves[k].from])
  {
    assert RowMovedAt(fs, m, gone, back, moves[k].to);
    forall j {:trigger moves[j]} | k + 1 <= j < |moves| ensures moves[j].from != moves[k].to {
      assert RowMovedAt(fs, m, gone, back, moves[j].from);
    }
  }

  lemma {:induction false} MoveMapOnly(moves: seq<Move>, k: nat, p: Path) returns (j: nat)
    requires k <= |moves| && p in MoveMap(moves, k)
    ensures j < k && moves[j] == Move(p, MoveMap(moves, k)[p])
    decreases k
  {
    if moves[k - 1].from == p { j := k - 1; } else { j := MoveMapOnly(moves, k - 1, p); }
  }

  /** Why move `j` can be refused: a rule protects one of its sides or refuses its size there, or its target is
      taken, by a row or by an earlier move. */
  ghost predicate Blocked(rules: seq<Rule>, fs: Files, moves: seq<Move>, j: int) {
    && 0 <= j < |moves| && moves[j].from in fs
    && (|| Protected(rules, moves[j].from) || Refused(rules, map[], Total(fs), moves[j].to, fs[moves[j].from])
        || moves[j].to in fs || exists k :: 0 <= k < j && moves[k].to == moves[j].to)
  }

  ghost predicate AnyBlocked(rules: seq<Rule>, fs: Files, moves: seq<Move>) {
    exists j :: Blocked(rules, fs, moves, j)
  }

  /** Move `j` breaks no rule: neither side is protected, and the row fits at its new path while it still counts at
      its old one. */
  ghost predicate Accepted(rules: seq<Rule>, fs: Files, moves: seq<Move>, j: int) {
    0 <= j < |moves| ==>
      && !Protected(rules, moves[j].from) && !Protected(rules, moves[j].to)
      && (moves[j].from in fs && moves[j].from != moves[j].to ==>
        !Refused(rules, map[], Total(fs), moves[j].to, fs[moves[j].from]))
  }

  lemma WhyAccepted(rules: seq<Rule>, fs: Files, m: Files, moves: seq<Move>, i: nat)
    requires i < |moves| && moves[i].from in m
    requires moves[i].from in fs ==> m[moves[i].from] == fs[moves[i].from]
    requires !MoveRefused(rules, m, Total(fs), moves[i].from, moves[i].to)
    ensures Accepted(rules, fs, moves, i)
  {
  }

  lemma WhyRefused(rules: seq<Rule>, fs: Files, a: Chunks, dirty: set<Path>, m: Files, b: Chunks, d: set<Path>,
                   gone: set<Path>, back: map<Path, Path>, moves: seq<Move>, i: nat)
    requires AllMoved(fs, a, dirty, m, b, d, gone, back) && i < |moves| && Inverse(MoveMap(moves, i), gone, back)
    requires moves[i].from in fs && moves[i].from in m && m[moves[i].from] == fs[moves[i].from]
    requires MoveRefused(rules, m, Total(fs), moves[i].from, moves[i].to)
    ensures Blocked(rules, fs, moves, i)
  {
    var to := moves[i].to;
    assert RowMovedAt(fs, m, gone, back, to);
    if to in back {
      assert InverseAt(MoveMap(moves, i), gone, back, to);
      var k := MoveMapOnly(moves, i, back[to]);
      assert moves[k].to == moves[i].to;
    }
  }

  /** Move the rows in turn. On success that is one simultaneous move of all of them; the first refused one
      stops it. */
  method MoveAll(c: Connection, moves: seq<Move>) returns (ok: bool, ghost gone: set<Path>, ghost back: map<Path, Path>)
    requires Sound(c) && DistinctMoves(c.fs, moves)
    modifies c`fs, c`chunks, c`dirty
    ensures Sound(c)
    ensures !ok ==> AnyBlocked(c.rules, old(c.fs), moves)
    ensures ok ==> AllMoved(old(c.fs), old(c.chunks), old(c.dirty), c.fs, c.chunks, c.dirty, gone, back)
    ensures ok ==> Inverse(MoveMap(moves, |moves|), gone, back) && Free(old(c.fs), gone, back)
    ensures ok ==> forall j {:trigger Accepted(old(c.rules), old(c.fs), moves, j)} ::
      Accepted(old(c.rules), old(c.fs), moves, j)
  {
    gone, back := {}, map[];
    NoneMoved(c.fs, c.chunks, c.dirty);
    forall p ensures InverseAt(MoveMap(moves, 0), gone, back, p) {}
    var i := 0;
    while i < |moves|
      invariant 0 <= i <= |moves| && Sound(c)
      invariant AllMoved(old(c.fs), old(c.chunks), old(c.dirty), c.fs, c.chunks, c.dirty, gone, back)
      invariant Pending(old(c.fs), gone, back, moves, i)
      invariant Inverse(MoveMap(moves, i), gone, back) && Free(old(c.fs), gone, back)
      invariant forall j {:trigger Accepted(old(c.rules), old(c.fs), moves, j)} ::
        j < i ==> Accepted(old(c.rules), old(c.fs), moves, j)
    {
      var m := moves[i];
      assert RowMovedAt(old(c.fs), c.fs, gone, back, m.from);
      ghost var fs, chunks, dirty := c.fs, c.chunks, c.dirty;
      ok := MovePath(c, m.from, m.to);
      if !ok {
        WhyRefused(c.rules, old(c.fs), old(c.chunks), old(c.dirty), fs, chunks, dirty, gone, back, moves, i);
        return;
      }
      WhyAccepted(c.rules, old(c.fs), fs, moves, i);
      OneMoreMoved(old(c.fs), old(c.chunks), old(c.dirty), fs, chunks, dirty, c.chunks, gone, back, m.from, m.to);
      PendingMore(old(c.fs), old(c.chunks), old(c.dirty), fs, chunks, dirty, gone, back, moves, i);
      InverseMore(MoveMap(moves, i), gone, back, m.from, m.to);
      gone, back, i := gone + {m.from}, back[m.to := m.from], i + 1;
    }
    ok := true;
  }

  // ------------------------------------------------------------------ what the moves mean

  lemma MovedList(fs: Files, a: Chunks, dirty: set<Path>, fs': Files, b: Chunks, dirty': set<Path>, gone: set<Path>,
                  back: map<Path, Path>, q: Path)
    requires AllMoved(fs, a, dirty, fs', b, dirty', gone, back)
    ensures q in back ==> List(b, Live, q) == List(a, Live, back[q])
    ensures q !in back && q !in gone ==> List(b, Live, q) == List(a, Live, q)
  {
    if q in back {
      var l, m := List(b, Live, q), List(a, Live, back[q]);
      forall i: nat ensures (i in l <==> i in m) && (i in l ==> l[i] == m[i]) {
        assert SlotMovedAt(a, b, gone, back, Slot(Live, q, i));
      }
    } else if q !in gone {
      forall i: nat ensures SameSlot(b, Live, a, Live, q, i) { assert SlotMovedAt(a, b, gone, back, Slot(Live, q, i)); }
      SameList(b, Live, a, Live, q);
    }
  }

  lemma MovesEnabled(fs: Files, a: Chunks, dirty: set<Path>, fs': Files, b: Chunks, dirty': set<Path>, gone: set<Path>,
                     back: map<Path, Path>, mv: map<Path, Path>)
    requires AllMoved(fs, a, dirty, fs', b, dirty', gone, back) && Inverse(mv, gone, back)
    requires Free(fs, gone, back)
    ensures Worlds.Injective(mv) && mv.Keys <= fs.Keys && mv.Values !! (fs.Keys - mv.Keys)
  {
    forall x, y | x in mv && y in mv && mv[x] == mv[y] ensures x == y {
      assert InverseAt(mv, gone, back, x) && InverseAt(mv, gone, back, y);
    }
    forall x | x in mv ensures x in fs {
      assert InverseAt(mv, gone, back, x);
      assert RowMovedAt(fs, fs', gone, back, mv[x]);
    }
    forall q | q in mv.Values ensures q !in fs.Keys - mv.Keys {
      var x :| x in mv && mv[x] == q;
      assert InverseAt(mv, gone, back, x) && InverseAt(mv, gone, back, q);
    }
  }

  /** The moved live tree is the old one with all moves made at once. */
  lemma MovedTree(fs: Files, a: Chunks, dirty: set<Path>, fs': Files, b: Chunks, dirty': set<Path>, gone: set<Path>,
                  back: map<Path, Path>, mv: map<Path, Path>)
    requires AllMoved(fs, a, dirty, fs', b, dirty', gone, back) && Inverse(mv, gone, back)
    requires Worlds.Injective(mv) && mv.Keys <= fs.Keys
    ensures TreeOf(fs', b, Live) == Worlds.Rekey(TreeOf(fs, a, Live), mv)
  {
    var s, t := TreeOf(fs', b, Live), TreeOf(fs, a, Live);
    var r := Worlds.Rekey(t, mv);
    forall q ensures At(s, q) == At(r, q) {
      assert RowMovedAt(fs, fs', gone, back, q) && InverseAt(mv, gone, back, q);
      MovedList(fs, a, dirty, fs', b, dirty', gone, back, q);
      if q in back {
        assert InverseAt(mv, gone, back, back[q]);
        Worlds.RekeyAt(t, mv, back[q], q);
      } else {
        forall x | x in mv ensures mv[x] != q { assert InverseAt(mv, gone, back, x); }
        assert q !in mv.Values;
        Worlds.RekeyAt(t, mv, q, q);
      }
    }
    SameTree(s, r);
  }

  lemma MovedMarks(fs: Files, a: Chunks, dirty: set<Path>, fs': Files, b: Chunks, dirty': set<Path>, gone: set<Path>,
                   back: map<Path, Path>, mv: map<Path, Path>)
    requires AllMoved(fs, a, dirty, fs', b, dirty', gone, back) && Inverse(mv, gone, back) && Free(fs, gone, back)
    requires forall p {:trigger p in dirty} :: p in dirty ==> p in fs
    ensures dirty' == (dirty - mv.Keys) + (set p | p in mv && p in dirty :: mv[p])
  {
    var moved := set p | p in mv && p in dirty :: mv[p];
    forall q ensures q in dirty' <==> q in (dirty - mv.Keys) + moved {
      assert DirtyMovedAt(dirty, dirty', gone, back, q) && InverseAt(mv, gone, back, q);
      if q in back { assert InverseAt(mv, gone, back, back[q]); }
      if q in moved {
        var p :| p in mv && p in dirty && mv[p] == q;
        assert InverseAt(mv, gone, back, p);
      }
    }
  }

  /** A successful run of moves is one rename step of the abstract machine. */
  lemma MovesRefine(fs: Files, a: Chunks, dirty: set<Path>, fs': Files, b: Chunks, dirty': set<Path>, snaps: Snapshots,
                    undos: Undos,
                    gone: set<Path>, back: map<Path, Path>, mv: map<Path, Path>)
    requires AllMoved(fs, a, dirty, fs', b, dirty', gone, back) && Inverse(mv, gone, back) && Free(fs, gone, back)
    requires forall p {:trigger p in dirty} :: p in dirty ==> p in fs
    ensures Worlds.Enabled(ViewOf(fs, a, dirty, snaps, undos), Worlds.Rename(mv))
    ensures ViewOf(fs', b, dirty', snaps, undos) == Worlds.Step(ViewOf(fs, a, dirty, snaps, undos), Worlds.Rename(mv))
  {
    MovesEnabled(fs, a, dirty, fs', b, dirty', gone, back, mv);
    assert TreeOf(fs, a, Live).Keys == fs.Keys;
    MovedTree(fs, a, dirty, fs', b, dirty', gone, back, mv);
    MovedMarks(fs, a, dirty, fs', b, dirty', gone, back, mv);
    forall s ensures KeptSlot(a, b, Live, s) { assert SlotMovedAt(a, b, gone, back, s); }
    LiveChange(fs, a, dirty, fs', b, dirty', snaps, undos);
  }
}
