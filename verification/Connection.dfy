/** A database connection: the tables, the rules in force, and the row statements every operation is made
    of. A savepoint is a copy of the tables it covers; rolling back puts the copy back. */
module Connections {
  import opened Tables
  import opened Policy

  /** Counts are exact and every stored block decodes: what every single statement keeps. */
  ghost predicate Core(chunks: Chunks, blobs: Blobs, dicts: Dicts) {
    RefOk(chunks, blobs) && BlobsDecode(dicts, blobs)
  }

  /** What a change of chunk rows and blobs keeps: exact counts stay exact with no new idle blob, decodable
      blocks stay decodable. */
  ghost predicate Keeps(a: Chunks, x: Blobs, b: Chunks, y: Blobs, dicts: Dicts) {
    && (RefOk(a, x) ==> RefOk(b, y) && Idle(b, y) <= Idle(a, x))
    && (BlobsDecode(dicts, x) ==> BlobsDecode(dicts, y))
  }

  lemma InsertOne(chunks: Chunks, blobs: Blobs, dicts: Dicts, s: Slot, k: Key)
    requires s !in chunks && k in blobs
    ensures Keeps(chunks, blobs, chunks[s := k], Bump(blobs, k), dicts)
    ensures Bump(blobs, k).Keys == blobs.Keys
    ensures RefOk(chunks, blobs) ==> Idle(chunks[s := k], Bump(blobs, k)) == Idle(chunks, blobs) - {k}
  {
    if RefOk(chunks, blobs) { InsertKeeps(chunks, blobs, s, k); }
    if BlobsDecode(dicts, blobs) { BumpDecodes(dicts, blobs, k); }
  }

  lemma DeleteOne(chunks: Chunks, blobs: Blobs, dicts: Dicts, s: Slot)
    requires s in chunks
    ensures Keeps(chunks, blobs, chunks - {s}, Release(blobs, chunks[s]), dicts)
  {
    if RefOk(chunks, blobs) { DeleteKeeps(chunks, blobs, s); }
    if BlobsDecode(dicts, blobs) { BumpDecodes(dicts, blobs, chunks[s]); }
  }

  class Connection {
    var fs: Files
    var chunks: Chunks
    var blobs: Blobs
    var dicts: Dicts
    var dirty: set<Path>
    var snaps: Snapshots
    var undos: Undos
    var logical: int
    var rules: seq<Rule>

    /** Insert chunk rows one by one, each firing its table's insert trigger. */
    method InsertSlots(rows: Chunks)
      requires rows.Keys !! chunks.Keys
      requires forall s {:trigger rows[s]} :: s in rows ==> rows[s] in blobs
      modifies this`chunks, this`blobs
      ensures chunks == old(chunks) + rows
      ensures Keeps(old(chunks), old(blobs), chunks, blobs, dicts) && blobs.Keys == old(blobs).Keys
    {
      var todo := rows.Keys;
      while todo != {}
        invariant todo <= rows.Keys
        invariant chunks == old(chunks) + (rows - todo)
        invariant Keeps(old(chunks), old(blobs), chunks, blobs, dicts) && blobs.Keys == old(blobs).Keys
        decreases |todo|
      {
        var s :| s in todo;
        var k := rows[s];
        InsertOne(chunks, blobs, dicts, s, k);
        assert old(chunks) + (rows - (todo - {s})) == chunks[s := k];
        chunks := chunks[s := k];
        blobs := Bump(blobs, k);
        todo := todo - {s};
      }
      assert rows - {} == rows;
    }

    /** Delete chunk rows one by one, each firing its table's delete trigger. */
    method DeleteSlots(gone: set<Slot>)
      modifies this`chunks, this`blobs
      ensures chunks == old(chunks) - gone
      ensures Keeps(old(chunks), old(blobs), chunks, blobs, dicts)
    {
      var todo := gone;
      while todo != {}
        invariant todo <= gone
        invariant chunks == old(chunks) - (gone - todo)
        invariant Keeps(old(chunks), old(blobs), chunks, blobs, dicts)
        decreases |todo|
      {
        var s :| s in todo;
        assert old(chunks) - (gone - (todo - {s})) == chunks - {s};
        if s in chunks {
          DeleteOne(chunks, blobs, dicts, s);
          blobs := Release(blobs, chunks[s]);
          chunks := chunks - {s};
        } else {
          assert chunks - {s} == chunks;
        }
        todo := todo - {s};
      }
      assert gone - {} == gone;
    }
  }

  twostate predicate BlobsKept(c: Connection)
    reads c
  {
    Keeps(old(c.chunks), old(c.blobs), c.chunks, c.blobs, c.dicts)
  }

  /** A total within the quotas stays within them. */
  twostate predicate QuotaKept(c: Connection)
    reads c`rules, c`logical
  {
    old(InQuota(c.rules, c.logical)) ==> InQuota(c.rules, c.logical)
  }

  /** `ROLLBACK TO` a savepoint: the copies are put back. */
  method PutBack(c: Connection, fs: Files, chunks: Chunks, blobs: Blobs, logical: int)
    modifies c`fs, c`chunks, c`blobs, c`logical
    ensures c.fs == fs && c.chunks == chunks && c.blobs == blobs && c.logical == logical
  {
    c.fs, c.chunks, c.blobs, c.logical := fs, chunks, blobs, logical;
  }

  /** The live rows, chunk rows, blobs, marks and the byte counter are as they were. */
  twostate predicate SameTables(c: Connection)
    reads c
  {
    && c.fs == old(c.fs) && c.chunks == old(c.chunks) && c.blobs == old(c.blobs)
    && c.dirty == old(c.dirty) && c.logical == old(c.logical)
  }
}
