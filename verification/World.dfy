/** The store as a state machine over trees: the live tree, the files with a pending hash, the snapshots and
    the undo records. The operations on tables refine these steps; what holds of every run is proved here. */
module Worlds {
  import opened Tables
  import opened Trees
  import opened Chunking

  datatype World = World(live: Tree, dirty: set<Path>, snaps: map<nat, Tree>, undos: map<nat, Record>)

  datatype Op =
    | Put(path: Path, entry: Entry)              // a whole file, directory or link written over the path
    | Remove(path: Path)                         // the row, its chunks and its pending mark
    | Defer(path: Path, bytes: Bytes, mtime: int) // a ranged write or truncate: the hash is left for later
    | Finalize(paths: set<Path>)
    | Rename(moves: map<Path, Path>)
    | SnapCreate(id: nat)
    | SnapRestore(id: nat)
    | SnapDelete(ids: set<nat>)
    | Merge(over: Tree)                          // every entry of a package over the live tree
    | UndoBegin(id: nat)
    | UndoCapture(id: nat, path: Path)
    | UndoApply(id: nat)
    | UndoDelete(id: nat)

  // ------------------------------------------------------------------ the steps

  /** Every path of the record put back as captured; every other path left alone. */
  ghost function Apply(t: Tree, r: Record): Tree {
    map p | p in t.Keys + r.Keys && (p in r ==> r[p].Some?) :: if p in r then r[p].value else t[p]
  }

  lemma ApplyAt(t: Tree, r: Record, p: Path)
    ensures At(Apply(t, r), p) == if p in r then r[p] else At(t, p)
  {
  }

  ghost predicate Injective(moves: map<Path, Path>) {
    forall a, b :: a in moves && b in moves && moves[a] == moves[b] ==> a == b
  }

  /** The moved entries at their new paths, all at once; everything else where it was. */
  ghost function Rekey(t: Tree, moves: map<Path, Path>): Tree
    requires Injective(moves) && moves.Keys <= t.Keys
  {
    (t - moves.Keys) + map p | p in moves :: moves[p] := t[p]
  }

  ghost function Deferred(e: Entry, bytes: Bytes, mtime: int): Entry {
    Entry(e.row.(size := |bytes|, mtime := mtime), ListOf(bytes))
  }

  ghost function Finalized(e: Entry): Entry {
    e.(row := e.row.(hash := Some(Sha256(Content(e)))))
  }

  /** The tree with the hashes of `ps` recomputed. */
  ghost function FinalTree(t: Tree, ps: set<Path>): Tree {
    map p | p in t :: if p in ps then Finalized(t[p]) else t[p]
  }

  /** Every entry of `over` in place of what is at its path, with no hash pending there. */
  ghost function Merged(w: World, over: Tree): World {
    w.(live := w.live + over, dirty := w.dirty - over.Keys)
  }

  ghost predicate Enabled(w: World, op: Op) {
    match op
    case Put(p, e) => Exact(e)
    case Remove(p) => true
    case Defer(p, bytes, mtime) => p in w.live && w.live[p].row.kind == File
    case Finalize(ps) => forall p {:trigger p in ps} :: p in ps ==> p in w.dirty
    case Rename(moves) => Injective(moves) && moves.Keys <= w.live.Keys && moves.Values !! (w.live.Keys - moves.Keys)
    case SnapCreate(id) => id !in w.snaps && w.dirty == {}
    case SnapRestore(id) => id in w.snaps
    case SnapDelete(ids) => ids <= w.snaps.Keys
    case Merge(over) => forall p {:trigger TreeExactAt(over, p)} :: TreeExactAt(over, p)
    case UndoBegin(id) => id !in w.undos
    case UndoCapture(id, p) => id in w.undos && p !in w.dirty
    case UndoApply(id) => id in w.undos
    case UndoDelete(id) => id in w.undos
  }

  ghost function Step(w: World, op: Op): World
    requires Enabled(w, op)
  {
    match op
    case Put(p, e) => w.(live := w.live[p := e])
    case Remove(p) => w.(live := w.live - {p}, dirty := w.dirty - {p})
    case Defer(p, bytes, mtime) => w.(live := w.live[p := Deferred(w.live[p], bytes, mtime)], dirty := w.dirty + {p})
    case Finalize(ps) => w.(live := FinalTree(w.live, ps), dirty := w.dirty - ps)
    case Rename(moves) =>
      w.(live := Rekey(w.live, moves),
         dirty := (w.dirty - moves.Keys) + (set p | p in moves && p in w.dirty :: moves[p]))
    case SnapCreate(id) => w.(snaps := w.snaps[id := w.live])
    case SnapRestore(id) => w.(live := w.snaps[id], dirty := {})
    case SnapDelete(ids) => w.(snaps := w.snaps - ids)
    case Merge(over) => Merged(w, over)
    case UndoBegin(id) => w.(undos := w.undos[id := map[]])
    case UndoCapture(id, p) =>
      if p in w.undos[id] then w else w.(undos := w.undos[id := w.undos[id][p := At(w.live, p)]])
    case UndoApply(id) => w.(live := Apply(w.live, w.undos[id]), dirty := w.dirty - w.undos[id].Keys)
    case UndoDelete(id) => w.(undos := w.undos - {id})
  }

  /** Every operation of the run can be taken where it is taken. */
  ghost predicate Legal(w: World, ops: seq<Op>)
    decreases |ops|
  {
    ops == [] || (Enabled(w, ops[0]) && Legal(Step(w, ops[0]), ops[1..]))
  }

  ghost function Run(w: World, ops: seq<Op>): World
    requires Legal(w, ops)
    decreases |ops|
  {
    if ops == [] then w else Run(Step(w, ops[0]), ops[1..])
  }

  // ------------------------------------------------------------------ hashes over every run

  /** A live file has a hash, the exact one unless it is marked pending; a pending path exists. */
  ghost predicate LiveExact(w: World, p: Path) {
    && (p in w.live ==> Canonical(w.live[p]) && (p !in w.dirty ==> HashExact(w.live[p])))
    && (p in w.live && w.live[p].row.kind == File ==> w.live[p].row.hash.Some?)
    && (p in w.dirty ==> p in w.live)
  }

  ghost predicate TreeExactAt(t: Tree, p: Path) {
    p in t ==> Exact(t[p])
  }

  ghost predicate RecordExactAt(r: Record, p: Path) {
    p in r && r[p].Some? ==> Exact(r[p].value)
  }

  ghost predicate WorldExact(w: World) {
    && (forall p {:trigger LiveExact(w, p)} :: LiveExact(w, p))
    && (forall id, p {:trigger TreeExactAt(w.snaps[id], p)} :: id in w.snaps ==> TreeExactAt(w.snaps[id], p))
    && (forall id, p {:trigger RecordExactAt(w.undos[id], p)} :: id in w.undos ==> RecordExactAt(w.undos[id], p))
  }

  lemma FinalizedExact(e: Entry)
    requires Canonical(e)
    ensures Exact(Finalized(e))
  {
  }

  lemma DeferredCanonical(e: Entry, bytes: Bytes, mtime: int)
    requires e.row.kind == File
    ensures Canonical(Deferred(e, bytes, mtime)) && Content(Deferred(e, bytes, mtime)) == bytes
  {
    Holds(Deferred(e, bytes, mtime), bytes);
  }

  lemma RekeyAt(t: Tree, moves: map<Path, Path>, q: Path, p: Path)
    requires Injective(moves) && moves.Keys <= t.Keys
    ensures q in moves && moves[q] == p ==> At(Rekey(t, moves), p) == At(t, q)
    ensures p !in moves.Values ==> At(Rekey(t, moves), p) == if p in moves then None else At(t, p)
  {
  }

  lemma RenameExact(w: World, moves: map<Path, Path>, p: Path)
    requires WorldExact(w) && Enabled(w, Rename(moves))
    ensures LiveExact(Step(w, Rename(moves)), p)
  {
    if p in moves.Values {
      var q :| q in moves && moves[q] == p;
      assert LiveExact(w, q) && LiveExact(w, p);
      RekeyAt(w.live, moves, q, p);
      var v := Step(w, Rename(moves));
      assert At(v.live, p) == At(w.live, q);
      assert p in v.dirty <==> q in w.dirty;
    } else {
      assert LiveExact(w, p);
      RekeyAt(w.live, moves, p, p);
    }
  }

  lemma LiveStepExact(w: World, op: Op, p: Path)
    requires WorldExact(w) && Enabled(w, op)
    ensures LiveExact(Step(w, op), p)
  {
    assert LiveExact(w, p);
    match op
    case Put(_, _) =>
    case Remove(_) =>
    case Defer(q, bytes, mtime) => DeferredCanonical(w.live[q], bytes, mtime);
    case Finalize(_) => if p in w.live { FinalizedExact(w.live[p]); }
    case Rename(moves) => RenameExact(w, moves, p);
    case SnapCreate(_) =>
    case SnapRestore(id) => assert TreeExactAt(w.snaps[id], p);
    case SnapDelete(_) =>
    case Merge(over) => assert TreeExactAt(over, p);
    case UndoBegin(_) =>
    case UndoCapture(_, _) =>
    case UndoApply(id) =>
      ApplyAt(w.live, w.undos[id], p);
      assert RecordExactAt(w.undos[id], p);
    case UndoDelete(_) =>
  }

  lemma KeptStepExact(w: World, op: Op, id: nat, p: Path)
    requires WorldExact(w) && Enabled(w, op)
    ensures var v := Step(w, op);
      && (id in v.snaps ==> TreeExactAt(v.snaps[id], p))
      && (id in v.undos ==> RecordExactAt(v.undos[id], p))
  {
    assert LiveExact(w, p);
    if id in w.snaps { assert TreeExactAt(w.snaps[id], p); }
    if id in w.undos { assert RecordExactAt(w.undos[id], p); }
  }

  /** A merge copies the package's hashes as they are. So it keeps every hash exact exactly when the package's
      own entries are exact. */
  lemma MergeExactIff(w: World, over: Tree)
    requires WorldExact(w)
    ensures WorldExact(Merged(w, over)) <==> forall p {:trigger TreeExactAt(over, p)} :: TreeExactAt(over, p)
  {
    var v := Merged(w, over);
    if WorldExact(v) {
      forall p ensures TreeExactAt(over, p) { assert LiveExact(v, p); }
    } else if forall p {:trigger TreeExactAt(over, p)} :: TreeExactAt(over, p) {
      assert Enabled(w, Merge(over)) && Step(w, Merge(over)) == v;
      StepExact(w, Merge(over));
    }
  }

  lemma StepExact(w: World, op: Op)
    requires WorldExact(w) && Enabled(w, op)
    ensures WorldExact(Step(w, op))
  {
    var v := Step(w, op);
    forall p ensures LiveExact(v, p) { LiveStepExact(w, op, p); }
    forall id, p
      ensures id in v.snaps ==> TreeExactAt(v.snaps[id], p)
      ensures id in v.undos ==> RecordExactAt(v.undos[id], p)
    {
      KeptStepExact(w, op, id, p);
    }
  }

  /** Throughout any run of deferred writes, full writes, renames, snapshots, restores and undo steps, every
      file not marked pending has the exact hash of its content, and so do all snapshots and undo records. */
  lemma {:induction false} HashesExactOverRuns(w: World, ops: seq<Op>)
    requires WorldExact(w) && Legal(w, ops)
    ensures WorldExact(Run(w, ops))
    decreases |ops|
  {
    if ops != [] {
      StepExact(w, ops[0]);
      HashesExactOverRuns(Step(w, ops[0]), ops[1..]);
    }
  }

  // ------------------------------------------------------------------ runs in parts

  lemma {:induction false} SplitRun(w: World, ops: seq<Op>, i: nat)
    requires i <= |ops|
    ensures Legal(w, ops) <==> Legal(w, ops[..i]) && Legal(Run(w, ops[..i]), ops[i..])
    ensures Legal(w, ops) ==> Run(w, ops) == Run(Run(w, ops[..i]), ops[i..])
    decreases i
  {
    if i == 0 {
      assert ops[..0] == [] && ops[0..] == ops;
    } else {
      assert ops[..i][0] == ops[0] && ops[..i][1..] == ops[1..][..i - 1] && ops[i..] == ops[1..][i - 1..];
      if Enabled(w, ops[0]) { SplitRun(Step(w, ops[0]), ops[1..], i - 1); }
    }
  }

  lemma RunMore(w: World, ops: seq<Op>, op: Op)
    requires Legal(w, ops) && Enabled(Run(w, ops), op)
    ensures Legal(w, ops + [op]) && Run(w, ops + [op]) == Step(Run(w, ops), op)
  {
    SplitRun(w, ops + [op], |ops|);
    assert (ops + [op])[..|ops|] == ops && (ops + [op])[|ops|..] == [op] && [op][1..] == [];
    assert Legal(Step(Run(w, ops), op), []);
  }

  // ------------------------------------------------------------------ snapshots over every run

  ghost predicate Deletes(op: Op, id: nat) {
    op.SnapDelete? && id in op.ids
  }

  /** Whatever runs, a snapshot that is not deleted keeps its tree, and restoring it makes the live tree
      exactly the captured one with no hash pending. */
  lemma {:induction false} SnapshotRestoresOverRuns(w: World, ops: seq<Op>, id: nat)
    requires Legal(w, ops) && id in w.snaps && forall i :: 0 <= i < |ops| ==> !Deletes(ops[i], id)
    ensures var v := Run(w, ops);
      && id in v.snaps && v.snaps[id] == w.snaps[id]
      && Step(v, SnapRestore(id)).live == w.snaps[id] && Step(v, SnapRestore(id)).dirty == {}
    decreases |ops|
  {
    if ops != [] {
      var v := Step(w, ops[0]);
      assert !Deletes(ops[0], id);
      assert id in v.snaps && v.snaps[id] == w.snaps[id];
      SnapshotRestoresOverRuns(v, ops[1..], id);
    }
  }

  /** Snapshot `id` existed after `i` operations of the run and was not deleted since. */
  ghost predicate HeldSince(w: World, ops: seq<Op>, i: nat, id: nat) {
    && i <= |ops| && Legal(w, ops[..i]) && id in Run(w, ops[..i]).snaps
    && forall j :: i <= j < |ops| ==> !Deletes(ops[j], id)
  }

  /** A snapshot has the tree it had at any earlier point since which it was not deleted. */
  lemma HeldTree(w: World, ops: seq<Op>, i: nat, id: nat)
    requires Legal(w, ops) && HeldSince(w, ops, i, id)
    ensures id in Run(w, ops).snaps && Run(w, ops).snaps[id] == Run(w, ops[..i]).snaps[id]
  {
    SplitRun(w, ops, i);
    forall j | 0 <= j < |ops[i..]| ensures !Deletes(ops[i..][j], id) { assert ops[i..][j] == ops[i + j]; }
    SnapshotRestoresOverRuns(Run(w, ops[..i]), ops[i..], id);
  }

  /** A record captured while its path had a pending hash would bring the stale hash back unmarked: the
      reason every sync finalizes the pending hashes before it captures anything. */
  lemma StaleCaptureBreaksExactness(w: World, p: Path, id: nat)
    requires p in w.live && p in w.dirty && !HashExact(w.live[p]) && id in w.undos
    requires w.undos[id] == map[p := At(w.live, p)]
    ensures !LiveExact(Step(w, UndoApply(id)), p)
  {
    ApplyAt(w.live, w.undos[id], p);
  }
}
