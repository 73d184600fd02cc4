/** The file tree a set of rows and chunk rows describes: for each path its row and its chunk list. */
module Trees {
  import opened Tables
  import opened Chunking

  /** A path's row and its chunk list (index to key). */
  datatype Entry = Entry(row: Row, list: map<nat, Key>)
  type Tree = map<Path, Entry>
  /** An undo record: each captured path as it was, `None` when it did not exist. */
  type Record = map<Path, Option<Entry>>

  ghost function At(t: Tree, p: Path): Option<Entry> {
    if p in t then Some(t[p]) else None
  }

  /** Trees are equal when they say the same about every path. */
  lemma SameTree(a: Tree, b: Tree)
    requires forall p {:trigger At(a, p)} :: At(a, p) == At(b, p)
    ensures a == b
  {
    forall p ensures p in a <==> p in b {
      assert At(a, p) == At(b, p);
    }
    forall p | p in a ensures a[p] == b[p] {
      assert At(a, p) == At(b, p);
    }
  }

  // ------------------------------------------------------------------ exactness of one entry

  ghost function Content(e: Entry): Bytes {
    Concat(e.list, NumChunks(e.row.size))
  }

  /** A regular file's list is the canonical list of a content of the recorded size; other kinds have no
      chunks and no size. */
  ghost predicate Canonical(e: Entry) {
    if e.row.kind == File
    then e.list == ListOf(Content(e)) && |Content(e)| == e.row.size
    else e.list == map[] && e.row.size == 0
  }

  ghost predicate HashExact(e: Entry) {
    e.row.kind == File ==> e.row.hash == Some(Sha256(Content(e)))
  }

  ghost predicate Exact(e: Entry) {
    Canonical(e) && HashExact(e)
  }

  /** An entry that lists the pieces of `s` holds the content `s`. */
  lemma Holds(e: Entry, s: Bytes)
    requires e.row.kind == File && e.list == ListOf(s) && e.row.size == |s|
    ensures Canonical(e) && Content(e) == s
  {
    ListDenotes(s);
  }

  // ------------------------------------------------------------------ from tables to trees

  ghost function Indices(chunks: Chunks, o: Owner, p: Path): (ix: set<nat>)
    ensures forall i {:trigger i in ix} :: i in ix <==> Slot(o, p, i) in chunks
  {
    var ix := set s | s in chunks && s.owner == o && s.path == p :: s.idx;
    assert forall i :: Slot(o, p, i) in chunks ==> Slot(o, p, i).idx in ix;
    ix
  }

  ghost function List(chunks: Chunks, o: Owner, p: Path): map<nat, Key> {
    map i | i in Indices(chunks, o, p) :: chunks[Slot(o, p, i)]
  }

  ghost function TreeOf(fs: Files, chunks: Chunks, o: Owner): Tree {
    map p | p in fs :: Entry(fs[p], List(chunks, o, p))
  }

  ghost function RecordOf(rows: map<Path, Option<Row>>, chunks: Chunks, o: Owner): Record {
    map p | p in rows :: if rows[p].None? then None else Some(Entry(rows[p].value, List(chunks, o, p)))
  }

  ghost predicate SameSlot(a: Chunks, oa: Owner, b: Chunks, ob: Owner, p: Path, i: nat) {
    && (Slot(oa, p, i) in a <==> Slot(ob, p, i) in b)
    && (Slot(oa, p, i) in a ==> a[Slot(oa, p, i)] == b[Slot(ob, p, i)])
  }

  lemma SameList(a: Chunks, oa: Owner, b: Chunks, ob: Owner, p: Path)
    requires forall i: nat {:trigger SameSlot(a, oa, b, ob, p, i)} :: SameSlot(a, oa, b, ob, p, i)
    ensures List(a, oa, p) == List(b, ob, p)
  {
    forall i: nat
      ensures i in List(a, oa, p) <==> i in List(b, ob, p)
      ensures i in List(a, oa, p) ==> List(a, oa, p)[i] == List(b, ob, p)[i]
    {
      assert SameSlot(a, oa, b, ob, p, i);
    }
  }

  // ------------------------------------------------------------------ deleting and copying chunk rows

  /** Slot `s` when the rows of `o` at the paths `ps` are deleted. */
  ghost predicate DroppedAt(a: Chunks, b: Chunks, o: Owner, ps: set<Path>, s: Slot) {
    if s.owner == o && s.path in ps then s !in b
    else (s in b <==> s in a) && (s in b ==> b[s] == a[s])
  }

  /** `b` is `a` without the rows of `o` at the paths `ps`. */
  ghost predicate Dropped(a: Chunks, b: Chunks, o: Owner, ps: set<Path>) {
    forall s {:trigger DroppedAt(a, b, o, ps, s)} :: DroppedAt(a, b, o, ps, s)
  }

  /** Slot `s` when the rows of `from` at the paths `ps` are copied as rows of `to`. */
  ghost predicate CopiedAt(a: Chunks, b: Chunks, from: Owner, to: Owner, ps: set<Path>, s: Slot) {
    if s.owner == to && s.path in ps
    then (s in b <==> Slot(from, s.path, s.idx) in a) && (s in b ==> b[s] == a[Slot(from, s.path, s.idx)])
    else (s in b <==> s in a) && (s in b ==> b[s] == a[s])
  }

  /** `b` is `a` with, at the paths `ps`, exactly the rows of `from` as rows of `to`. */
  ghost predicate Copied(a: Chunks, b: Chunks, from: Owner, to: Owner, ps: set<Path>) {
    forall s {:trigger CopiedAt(a, b, from, to, ps, s)} :: CopiedAt(a, b, from, to, ps, s)
  }

  lemma ListAfterDrop(a: Chunks, b: Chunks, o: Owner, ps: set<Path>, q: Owner, p: Path)
    requires Dropped(a, b, o, ps)
    ensures List(b, q, p) == if q == o && p in ps then map[] else List(a, q, p)
  {
    if q == o && p in ps {
      forall i: nat ensures i !in List(b, q, p) {
        assert DroppedAt(a, b, o, ps, Slot(q, p, i));
      }
    } else {
      forall i: nat ensures SameSlot(b, q, a, q, p, i) {
        assert DroppedAt(a, b, o, ps, Slot(q, p, i));
      }
      SameList(b, q, a, q, p);
    }
  }

  lemma ListAfterCopy(a: Chunks, b: Chunks, from: Owner, to: Owner, ps: set<Path>, q: Owner, p: Path)
    requires Copied(a, b, from, to, ps)
    ensures List(b, q, p) == if q == to && p in ps then List(a, from, p) else List(a, q, p)
  {
    if q == to && p in ps {
      forall i: nat ensures SameSlot(b, q, a, from, p, i) {
        assert CopiedAt(a, b, from, to, ps, Slot(q, p, i));
      }
      SameList(b, q, a, from, p);
    } else {
      forall i: nat ensures SameSlot(b, q, a, q, p, i) {
        assert CopiedAt(a, b, from, to, ps, Slot(q, p, i));
      }
      SameList(b, q, a, q, p);
    }
  }

  // ------------------------------------------------------------------ a change in one chunk table only

  ghost predicate KeptSlot(a: Chunks, b: Chunks, x: Owner, s: Slot) {
    s.owner != x ==> (s in a <==> s in b) && (s in a ==> a[s] == b[s])
  }

  /** Only chunk rows of `x` differ. */
  ghost predicate Kept(a: Chunks, b: Chunks, x: Owner) {
    forall s {:trigger KeptSlot(a, b, x, s)} :: KeptSlot(a, b, x, s)
  }

  lemma KeptTrans(a: Chunks, b: Chunks, c: Chunks, x: Owner)
    requires Kept(a, b, x) && Kept(b, c, x)
    ensures Kept(a, c, x)
  {
    forall s ensures KeptSlot(a, c, x, s) {
      assert KeptSlot(a, b, x, s) && KeptSlot(b, c, x, s);
    }
  }

  lemma DropKept(a: Chunks, b: Chunks, o: Owner, ps: set<Path>)
    requires Dropped(a, b, o, ps)
    ensures Kept(a, b, o)
  {
    forall s ensures KeptSlot(a, b, o, s) { assert DroppedAt(a, b, o, ps, s); }
  }

  lemma CopyKept(a: Chunks, b: Chunks, from: Owner, to: Owner, ps: set<Path>)
    requires Copied(a, b, from, to, ps)
    ensures Kept(a, b, to)
  {
    forall s ensures KeptSlot(a, b, to, s) { assert CopiedAt(a, b, from, to, ps, s); }
  }

  /** Dropping more paths in turn drops them all. */
  lemma DropMore(a: Chunks, b: Chunks, c: Chunks, o: Owner, ps: set<Path>, qs: set<Path>)
    requires Dropped(a, b, o, ps) && Dropped(b, c, o, qs)
    ensures Dropped(a, c, o, ps + qs)
  {
    forall s ensures DroppedAt(a, c, o, ps + qs, s) {
      assert DroppedAt(a, b, o, ps, s) && DroppedAt(b, c, o, qs, s);
    }
  }

  /** Copying more paths in turn copies them all. */
  lemma CopyMore(a: Chunks, b: Chunks, c: Chunks, from: Owner, to: Owner, ps: set<Path>, qs: set<Path>)
    requires from != to && Copied(a, b, from, to, ps) && Copied(b, c, from, to, qs)
    ensures Copied(a, c, from, to, ps + qs)
  {
    forall s ensures CopiedAt(a, c, from, to, ps + qs, s) {
      assert CopiedAt(a, b, from, to, ps, s) && CopiedAt(b, c, from, to, qs, s);
      assert CopiedAt(a, b, from, to, ps, Slot(from, s.path, s.idx));
    }
  }
}
