/** The undo operations on tables are the undo steps of the abstract machine. */
module UndoRefines {
  import opened Tables
  import opened Trees
  import opened Worlds
  import opened Views
  import opened UndoRecords

  lemma SameLog(s: map<nat, Record>, t: map<nat, Record>)
    requires s.Keys == t.Keys
    requires forall id {:trigger s[id]} :: id in s ==> s[id] == t[id]
    ensures s == t
  {
  }

  lemma BegunLog(chunks: Chunks, undos: Undos, u: nat)
    requires u !in undos
    ensures UndosOf(undos[u := map[]], chunks) == UndosOf(undos, chunks)[u := map[]]
  {
    var s, t := UndosOf(undos[u := map[]], chunks), UndosOf(undos, chunks)[u := map[]];
    forall id {:trigger s[id]} | id in s ensures s[id] == t[id] {
      if id == u { assert RecordOf(map[], chunks, Undo(u)) == map[]; }
    }
    SameLog(s, t);
  }

  lemma BeginStep(w: World, u: nat)
    requires u !in w.undos
    ensures Step(w, UndoBegin(u)) == w.(undos := w.undos[u := map[]])
  {
  }

  lemma BeginRefines(fs: Files, chunks: Chunks, dirty: set<Path>, snaps: Snapshots, undos: Undos, u: nat)
    requires u !in undos
    ensures ViewOf(fs, chunks, dirty, snaps, undos[u := map[]]) ==
      Step(ViewOf(fs, chunks, dirty, snaps, undos), UndoBegin(u))
  {
    BeginStep(ViewOf(fs, chunks, dirty, snaps, undos), u);
    BegunLog(chunks, undos, u);
  }

  lemma CapturedRecord(fs: Files, a: Chunks, b: Chunks, undos: Undos, u: nat, p: Path)
    requires u in undos && p !in undos[u] && Copied(a, b, Live, Undo(u), {p})
    ensures RecordOf(WithCapture(undos, u, p, Captured(fs, p))[u], b, Undo(u)) ==
      RecordOf(undos[u], a, Undo(u))[p := At(TreeOf(fs, a, Live), p)]
  {
    var s := RecordOf(WithCapture(undos, u, p, Captured(fs, p))[u], b, Undo(u));
    var t := RecordOf(undos[u], a, Undo(u))[p := At(TreeOf(fs, a, Live), p)];
    forall q {:trigger s[q]} | q in s ensures s[q] == t[q] {
      ListAfterCopy(a, b, Live, Undo(u), {p}, Undo(u), q);
    }
    SameRecord(s, t);
  }

  lemma CapturedUndos(fs: Files, a: Chunks, b: Chunks, undos: Undos, u: nat, p: Path)
    requires u in undos && p !in undos[u] && Copied(a, b, Live, Undo(u), {p})
    ensures UndosOf(WithCapture(undos, u, p, Captured(fs, p)), b) ==
      UndosOf(undos, a)[u := RecordOf(undos[u], a, Undo(u))[p := At(TreeOf(fs, a, Live), p)]]
  {
    var un, r := WithCapture(undos, u, p,
                             Captured(fs, p)), RecordOf(undos[u], a, Undo(u))[p := At(TreeOf(fs, a, Live), p)];
    var s, t := UndosOf(un, b), UndosOf(undos, a)[u := r];
    forall id {:trigger s[id]} | id in s ensures s[id] == t[id] {
      if id == u {
        CapturedRecord(fs, a, b, undos, u, p);
      } else {
        CopyKept(a, b, Live, Undo(u), {p});
        KeptRecord(a, b, Undo(u), undos[id], Undo(id));
      }
    }
    SameLog(s, t);
  }

  lemma CaptureStep(w: World, u: nat, p: Path, r: Record)
    requires u in w.undos && w.undos[u] == r && p !in r && p !in w.dirty
    ensures Step(w, UndoCapture(u, p)) == w.(undos := w.undos[u := r[p := At(w.live, p)]])
  {
  }

  lemma CaptureRefines(fs: Files, a: Chunks, b: Chunks, dirty: set<Path>, snaps: Snapshots, undos: Undos, u: nat,
                       p: Path)
    requires u in undos && p !in undos[u] && p !in dirty && Copied(a, b, Live, Undo(u), {p})
    ensures ViewOf(fs, b, dirty, snaps, WithCapture(undos, u, p, Captured(fs, p))) ==
      Step(ViewOf(fs, a, dirty, snaps, undos), UndoCapture(u, p))
  {
    var w, r := ViewOf(fs, a, dirty, snaps, undos), RecordOf(undos[u], a, Undo(u));
    assert w.undos[u] == r;
    CaptureStep(w, u, p, r);
    CopyKept(a, b, Live, Undo(u), {p});
    assert TreeOf(fs, b, Live) == w.live by { KeptTree(a, b, Undo(u), fs, Live); }
    assert SnapsOf(snaps, b) == w.snaps by { KeptSnaps(a, b, Undo(u), snaps); }
    CapturedUndos(fs, a, b, undos, u, p);
  }

  lemma AppliedTree(fs: Files, a: Chunks, less: Chunks, b: Chunks, rows: map<Path, Option<Row>>, u: nat)
    requires Dropped(a, less, Live, rows.Keys) && Copied(less, b, Undo(u), Live, Existed(rows).Keys)
    ensures TreeOf(fs - rows.Keys + Existed(rows), b, Live) == Apply(TreeOf(fs, a, Live), RecordOf(rows, a, Undo(u)))
  {
    var s := TreeOf(fs - rows.Keys + Existed(rows), b, Live);
    var t := Apply(TreeOf(fs, a, Live), RecordOf(rows, a, Undo(u)));
    forall p ensures At(s, p) == At(t, p) {
      ApplyAt(TreeOf(fs, a, Live), RecordOf(rows, a, Undo(u)), p);
      ListAfterCopy(less, b, Undo(u), Live, Existed(rows).Keys, Live, p);
      ListAfterDrop(a, less, Live, rows.Keys, Live, p);
      ListAfterDrop(a, less, Live, rows.Keys, Undo(u), p);
    }
    SameTree(s, t);
  }

  lemma ApplyRefines(fs: Files, a: Chunks, less: Chunks, b: Chunks, dirty: set<Path>, snaps: Snapshots, undos: Undos,
                     u: nat)
    requires u in undos
    requires Dropped(a, less, Live, undos[u].Keys) && Copied(less, b, Undo(u), Live, Existed(undos[u]).Keys)
    ensures ViewOf(fs - undos[u].Keys + Existed(undos[u]), b, dirty - undos[u].Keys, snaps, undos) ==
      Step(ViewOf(fs, a, dirty, snaps, undos), UndoApply(u))
  {
    DropKept(a, less, Live, undos[u].Keys);
    CopyKept(less, b, Undo(u), Live, Existed(undos[u]).Keys);
    KeptTrans(a, less, b, Live);
    var fs', dirty' := fs - undos[u].Keys + Existed(undos[u]), dirty - undos[u].Keys;
    LiveChange(fs, a, dirty, fs', b, dirty', snaps, undos);
    AppliedTree(fs, a, less, b, undos[u], u);
    assert UndosOf(undos, a)[u] == RecordOf(undos[u], a, Undo(u));
    assert RecordOf(undos[u], a, Undo(u)).Keys == undos[u].Keys;
  }

  lemma DeletedLog(a: Chunks, b: Chunks, undos: Undos, u: nat)
    requires Kept(a, b, Undo(u))
    ensures UndosOf(undos - {u}, b) == UndosOf(undos, a) - {u}
  {
    var s, t := UndosOf(undos - {u}, b), UndosOf(undos, a) - {u};
    forall i {:trigger s[i]} | i in s ensures s[i] == t[i] { KeptRecord(a, b, Undo(u), undos[i], Undo(i)); }
    SameLog(s, t);
  }

  lemma DeleteStep(w: World, u: nat)
    requires u in w.undos
    ensures Step(w, UndoDelete(u)) == w.(undos := w.undos - {u})
  {
  }

  lemma DeleteRefines(fs: Files, a: Chunks, b: Chunks, dirty: set<Path>, snaps: Snapshots, undos: Undos, u: nat)
    requires u in undos && Dropped(a, b, Undo(u), undos[u].Keys)
    ensures ViewOf(fs, b, dirty, snaps, undos - {u}) == Step(ViewOf(fs, a, dirty, snaps, undos), UndoDelete(u))
  {
    var w := ViewOf(fs, a, dirty, snaps, undos);
    DeleteStep(w, u);
    DropKept(a, b, Undo(u), undos[u].Keys);
    assert TreeOf(fs, b, Live) == w.live by { KeptTree(a, b, Undo(u), fs, Live); }
    assert SnapsOf(snaps, b) == w.snaps by { KeptSnaps(a, b, Undo(u), snaps); }
    DeletedLog(a, b, undos, u);
  }
}
