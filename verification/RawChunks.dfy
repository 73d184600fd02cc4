/** The overlay's way of pointing a chunk row at new content: ensure the blob, delete the row, insert it
    again, with no test for an unchanged chunk. What that does to the reference counts. */
module RawChunks {
  import opened Tables
  import opened Connections
  import opened Store

  /** More chunk rows name `k` than its blob accounts for. */
  ghost predicate Short(chunks: Chunks, blobs: Blobs, k: Key) {
    RefAt(blobs, k) < Count(chunks, k)
  }

  /** The row already names `key` and is the only one that does. */
  ghost predicate LossyAt(chunks: Chunks, s: Slot, key: Key) {
    s in chunks && chunks[s] == key && Count(chunks, key) == 1
  }

  lemma OkNotShort(chunks: Chunks, blobs: Blobs, k: Key)
    requires RefOk(chunks, blobs)
    ensures !Short(chunks, blobs, k)
  {
    forall s | s in Refs(chunks, k) ensures k in blobs { assert HasBlob(chunks, blobs, s); }
    if k !in blobs { assert Refs(chunks, k) == {}; }
  }

  /** The blob table after the row `s` is deleted and inserted again for `key`. */
  function RawBlobs(chunks: Chunks, blobs: Blobs, s: Slot, key: Key): Blobs {
    Bump(if s in chunks then Release(blobs, chunks[s]) else blobs, key)
  }

  /** Unless it rewrites the only reference to a blob with the same content, the rewrite keeps the counts. */
  lemma RawKeeps(chunks: Chunks, blobs: Blobs, dicts: Dicts, s: Slot, key: Key)
    requires Core(chunks, blobs, dicts) && key in blobs && !LossyAt(chunks, s, key)
    ensures Core(chunks[s := key], RawBlobs(chunks, blobs, s, key), dicts)
    ensures Idle(chunks[s := key], RawBlobs(chunks, blobs, s, key)) == Idle(chunks, blobs) - {key}
  {
    if s in chunks {
      DeleteOne(chunks, blobs, dicts, s);
      CountPositive(chunks, s);
      assert blobs[key].refcnt == Count(chunks, key);
      InsertOne(chunks - {s}, Release(blobs, chunks[s]), dicts, s, key);
      assert (chunks - {s})[s := key] == chunks[s := key];
    } else {
      InsertOne(chunks, blobs, dicts, s, key);
    }
  }

  /** Rewriting the only reference to a blob with the same content drops the blob and keeps the row. */
  lemma RawLoses(chunks: Chunks, blobs: Blobs, dicts: Dicts, s: Slot, key: Key)
    requires Core(chunks, blobs, dicts) && LossyAt(chunks, s, key)
    ensures chunks[s := key] == chunks && key !in RawBlobs(chunks, blobs, s, key)
    ensures Short(chunks, RawBlobs(chunks, blobs, s, key), key)
  {
    assert HasBlob(chunks, blobs, s);
    assert blobs[key].refcnt == Count(chunks, key);
  }

  /** A blob that is short stays short while rows that do not name it are rewritten. */
  lemma RawStaysShort(chunks: Chunks, blobs: Blobs, s: Slot, key: Key, k: Key)
    requires Short(chunks, blobs, k) && (s in chunks ==> chunks[s] != k) && key in blobs
    ensures Short(chunks[s := key], RawBlobs(chunks, blobs, s, key), k)
  {
    if s in chunks {
      CountDelete(chunks, s, k);
      CountInsert(chunks - {s}, s, key, k);
      assert (chunks - {s})[s := key] == chunks[s := key];
    } else {
      CountInsert(chunks, s, key, k);
    }
  }

  lemma RawDecodes(chunks: Chunks, blobs: Blobs, dicts: Dicts, s: Slot, key: Key)
    requires BlobsDecode(dicts, blobs)
    ensures BlobsDecode(dicts, RawBlobs(chunks, blobs, s, key))
  {
    if s in chunks { BumpDecodes(dicts, blobs, chunks[s]); }
    BumpDecodes(dicts, if s in chunks then Release(blobs, chunks[s]) else blobs, key);
  }

  /** Point the row `s` at `piece`: ensure the blob, delete the row, insert it again. */
  method PutRaw(c: Connection, s: Slot, piece: Bytes)
    requires BlobsDecode(c.dicts, c.blobs)
    modifies c`chunks, c`blobs
    ensures BlobsDecode(c.dicts, c.blobs) && c.chunks == old(c.chunks)[s := Sha256(piece)]
    ensures old(Core(c.chunks, c.blobs, c.dicts)) && !LossyAt(old(c.chunks), s, Sha256(piece)) ==>
      Core(c.chunks, c.blobs, c.dicts) && Idle(c.chunks, c.blobs) <= old(Idle(c.chunks, c.blobs))
    ensures old(Core(c.chunks, c.blobs, c.dicts)) && LossyAt(old(c.chunks), s, Sha256(piece)) ==>
      Short(c.chunks, c.blobs, Sha256(piece))
    ensures forall k {:trigger Short(c.chunks, c.blobs, k)} ::
      Short(old(c.chunks), old(c.blobs), k) && (s in old(c.chunks) ==> old(c.chunks)[s] != k) ==>
        Short(c.chunks, c.blobs, k)
  {
    var key := Sha256(piece);
    ghost var chunks, was := c.chunks, c.blobs;
    BlobEnsure(c, piece);
    ghost var blobs := c.blobs;
    if s in c.chunks {
      c.blobs := Release(c.blobs, c.chunks[s]);
      c.chunks := c.chunks - {s};
    }
    c.chunks := c.chunks[s := key];
    c.blobs := Bump(c.blobs, key);
    assert c.chunks == chunks[s := key] && c.blobs == RawBlobs(chunks, blobs, s, key);
    RawDecodes(chunks, blobs, c.dicts, s, key);
    if Core(chunks, was, c.dicts) {
      if LossyAt(chunks, s, key) {
        RawLoses(chunks, blobs, c.dicts, s, key);
      } else {
        RawKeeps(chunks, blobs, c.dicts, s, key);
      }
    }
    forall k {:trigger Short(c.chunks, c.blobs, k)} | Short(chunks, was, k) && (s in chunks ==> chunks[s] != k)
      ensures Short(c.chunks, c.blobs, k)
    {
      assert RefAt(blobs, k) == RefAt(was, k);
      RawStaysShort(chunks, blobs, s, key, k);
    }
  }

  /** The loss can go unnoticed: a file's only chunk rewritten with its own bytes, and the next chunk written
      with the same bytes, leaves both readable with a count of 1. Dropping either row then drops the blob the
      other one needs. */
  lemma RewriteMiscounts(p: Path, data: Bytes, dicts: Dicts)
    ensures var s0, s1, k := Slot(Live, p, 0), Slot(Live, p, 1), Sha256(data);
      var chunks: Chunks, blobs: Blobs := map[s0 := k], map[k := Blob(Plain(data), 0, 1)];
      var once := RawBlobs(chunks, blobs, s0, k);
      var twice := RawBlobs(chunks, once[k := Blob(Plain(data), 0, 0)], s1, k);
      && Core(chunks, blobs, dicts) && k !in once
      && k in twice && twice[k].refcnt == 1 && Count(chunks[s1 := k], k) == 2
      && k !in Release(twice, k)
  {
    var s0, s1, k := Slot(Live, p, 0), Slot(Live, p, 1), Sha256(data);
    var chunks: Chunks, blobs: Blobs := map[s0 := k], map[k := Blob(Plain(data), 0, 1)];
    assert Refs(chunks, k) == {s0} && Refs(chunks[s1 := k], k) == {s0, s1};
    forall s ensures HasBlob(chunks, blobs, s) {}
    forall j ensures DecodesAt(dicts, blobs, j) {}
  }
}
