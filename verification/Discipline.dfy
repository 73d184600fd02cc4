/** Capture before write, on tables: what it means that an undo record holds everything a step changed, and
    the statements that keep it so. */
module Discipline {
  import opened Tables
  import opened Trees
  import opened Views
  import opened Store
  import opened UndoRecords
  import opened UndoRefines
  import Rewinds

  ghost predicate LoggedRow(fs0: Files, fs: Files, rows: map<Path, Option<Row>>, p: Path) {
    if p in rows then rows[p] == Captured(fs0, p) else Captured(fs, p) == Captured(fs0, p)
  }

  ghost predicate LoggedSlot(a: Chunks, b: Chunks, rows: map<Path, Option<Row>>, u: nat, s: Slot) {
    if s.owner == Undo(u) then s.path in rows ==> SameSlot(b, Undo(u), a, Live, s.path, s.idx)
    else (s.owner == Live && s.path in rows) || SameSlot(b, s.owner, a, s.owner, s.path, s.idx)
  }

  /** From the tables `fs0, a` to `fs, b`: record `u` (its rows are `rows`) holds what was there, and what
      it does not hold has not changed. */
  ghost predicate Logged(fs0: Files, a: Chunks, fs: Files, b: Chunks, rows: map<Path, Option<Row>>, u: nat) {
    && (forall p {:trigger LoggedRow(fs0, fs, rows, p)} :: LoggedRow(fs0, fs, rows, p))
    && (forall s {:trigger LoggedSlot(a, b, rows, u, s)} :: LoggedSlot(a, b, rows, u, s))
  }

  lemma LogBegin(fs: Files, a: Chunks, u: nat)
    ensures Logged(fs, a, fs, a, map[], u)
  {
    forall p ensures LoggedRow(fs, fs, map[], p) {}
    forall s ensures LoggedSlot(a, a, map[], u, s) {}
  }

  lemma LogCapture(fs0: Files, a: Chunks, fs: Files, b: Chunks, d: Chunks, rows: map<Path, Option<Row>>, u: nat,
                   p: Path)
    requires Logged(fs0, a, fs, b, rows, u) && p !in rows && Copied(b, d, Live, Undo(u), {p})
    ensures Logged(fs0, a, fs, d, rows[p := Captured(fs, p)], u)
  {
    var more := rows[p := Captured(fs, p)];
    forall q ensures LoggedRow(fs0, fs, more, q) { assert LoggedRow(fs0, fs, rows, q); }
    forall s ensures LoggedSlot(a, d, more, u, s) {
      assert LoggedSlot(a, b, rows, u, s);
      assert LoggedSlot(a, b, rows, u, Slot(Live, s.path, s.idx));
      assert CopiedAt(b, d, Live, Undo(u), {p}, s);
    }
  }

  ghost predicate SameRowAt(fs: Files, fs': Files, ps: set<Path>, q: Path) {
    q !in ps ==> Captured(fs, q) == Captured(fs', q)
  }

  /** The live rows differ at most at the paths `ps`. */
  ghost predicate OnlyRows(fs: Files, fs': Files, ps: set<Path>) {
    forall q {:trigger SameRowAt(fs, fs', ps, q)} :: SameRowAt(fs, fs', ps, q)
  }

  ghost predicate SameSlotAt(a: Chunks, b: Chunks, ps: set<Path>, s: Slot) {
    !(s.owner == Live && s.path in ps) ==> SameSlot(b, s.owner, a, s.owner, s.path, s.idx)
  }

  /** The chunk rows differ at most in the live rows of the paths `ps`. */
  ghost predicate OnlySlots(a: Chunks, b: Chunks, ps: set<Path>) {
    forall s {:trigger SameSlotAt(a, b, ps, s)} :: SameSlotAt(a, b, ps, s)
  }

  /** Captured paths may be written. */
  lemma LogWrite(fs0: Files, a: Chunks, fs: Files, b: Chunks, fs': Files, d: Chunks, rows: map<Path, Option<Row>>,
                 u: nat, ps: set<Path>)
    requires Logged(fs0, a, fs, b, rows, u) && (forall p {:trigger p in ps} :: p in ps ==> p in rows)
    requires OnlyRows(fs, fs', ps) && OnlySlots(b, d, ps)
    ensures Logged(fs0, a, fs', d, rows, u)
  {
    forall q ensures LoggedRow(fs0, fs', rows, q) {
      assert LoggedRow(fs0, fs, rows, q);
      assert SameRowAt(fs, fs', ps, q);
    }
    forall s ensures LoggedSlot(a, d, rows, u, s) {
      assert LoggedSlot(a, b, rows, u, s);
      assert SameSlotAt(b, d, ps, s);
    }
  }

  lemma WithRowOnly(fs: Files, p: Path, row: Row)
    ensures OnlyRows(fs, fs[p := row], {p})
  {
    var f := fs[p := row];
    forall q ensures SameRowAt(fs, f, {p}, q) {}
  }

  lemma FilledOnly(a: Chunks, b: Chunks, p: Path, data: Bytes, n: nat)
    requires Filled(a, b, p, data, n)
    ensures OnlySlots(a, b, {p})
  {
    forall s ensures SameSlotAt(a, b, {p}, s) { assert FilledAt(a, b, p, data, n, s); }
  }

  lemma DroppedOnly(fs: Files, a: Chunks, b: Chunks, ps: set<Path>)
    requires Dropped(a, b, Live, ps)
    ensures OnlyRows(fs, fs - ps, ps) && OnlySlots(a, b, ps)
  {
    var f := fs - ps;
    forall q ensures SameRowAt(fs, f, ps, q) {}
    forall s ensures SameSlotAt(a, b, ps, s) { assert DroppedAt(a, b, Live, ps, s); }
  }

  // ------------------------------------------------------------------ what the discipline means

  /** The record covers the step, in the sense of the restore-point theorem. */
  lemma LoggedCovers(fs0: Files, a: Chunks, fs: Files, b: Chunks, rows: map<Path, Option<Row>>, u: nat)
    requires Logged(fs0, a, fs, b, rows, u)
    ensures Rewinds.Covers(RecordOf(rows, b, Undo(u)), TreeOf(fs0, a, Live), TreeOf(fs, b, Live))
  {
    var r, before, after := RecordOf(rows, b, Undo(u)), TreeOf(fs0, a, Live), TreeOf(fs, b, Live);
    forall p ensures Rewinds.CoversAt(r, before, after, p) {
      assert LoggedRow(fs0, fs, rows, p);
      if p in rows {
        forall i: nat ensures SameSlot(b, Undo(u), a, Live, p, i) {
          assert LoggedSlot(a, b, rows, u, Slot(Undo(u), p, i));
        }
        SameList(b, Undo(u), a, Live, p);
      } else {
        forall i: nat ensures SameSlot(b, Live, a, Live, p, i) { assert LoggedSlot(a, b, rows, u, Slot(Live, p, i)); }
        SameList(b, Live, a, Live, p);
      }
    }
  }

  ghost predicate OtherRecordAt(undos: Undos, undos': Undos, u: nat, id: nat) {
    id != u ==> (id in undos' <==> id in undos) && (id in undos ==> undos'[id] == undos[id])
  }

  ghost predicate OtherRecords(undos: Undos, undos': Undos, u: nat) {
    && u in undos'
    && forall id {:trigger OtherRecordAt(undos, undos', u, id)} :: OtherRecordAt(undos, undos', u, id)
  }

  /** The other records are as they were. */
  lemma LoggedLog(fs0: Files, a: Chunks, fs: Files, b: Chunks, undos: Undos, undos': Undos, u: nat)
    requires OtherRecords(undos, undos', u) && Logged(fs0, a, fs, b, undos'[u], u)
    ensures UndosOf(undos', b) == UndosOf(undos, a)[u := RecordOf(undos'[u], b, Undo(u))]
  {
    var s, t := UndosOf(undos', b), UndosOf(undos, a)[u := RecordOf(undos'[u], b, Undo(u))];
    assert s.Keys == t.Keys by {
      forall id ensures id in s <==> id in t { assert OtherRecordAt(undos, undos', u, id); }
    }
    forall id {:trigger s[id]} | id in s ensures s[id] == t[id] {
      assert OtherRecordAt(undos, undos', u, id);
      if id != u {
        var x, y := RecordOf(undos[id], b, Undo(id)), RecordOf(undos[id], a, Undo(id));
        forall p {:trigger x[p]} | p in x ensures x[p] == y[p] {
          forall i: nat ensures SameSlot(b, Undo(id), a, Undo(id), p, i) {
            assert LoggedSlot(a, b, undos'[u], u, Slot(Undo(id), p, i));
          }
          SameList(b, Undo(id), a, Undo(id), p);
        }
        SameRecord(x, y);
      }
    }
    SameLog(s, t);
  }

  /** So are all snapshots. */
  lemma LoggedSnaps(fs0: Files, a: Chunks, fs: Files, b: Chunks, rows: map<Path, Option<Row>>, u: nat, snaps: Snapshots)
    requires Logged(fs0, a, fs, b, rows, u)
    ensures SnapsOf(snaps, b) == SnapsOf(snaps, a)
  {
    forall id | id in snaps ensures TreeOf(snaps[id], b, Snapshot(id)) == TreeOf(snaps[id], a, Snapshot(id)) {
      var s, t := TreeOf(snaps[id], b, Snapshot(id)), TreeOf(snaps[id], a, Snapshot(id));
      forall p ensures At(s, p) == At(t, p) {
        forall i: nat ensures SameSlot(b, Snapshot(id), a, Snapshot(id), p, i) {
          assert LoggedSlot(a, b, rows, u, Slot(Snapshot(id), p, i));
        }
        SameList(b, Snapshot(id), a, Snapshot(id), p);
      }
      SameTree(s, t);
    }
  }
}
