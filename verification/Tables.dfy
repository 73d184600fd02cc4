/** The tables of a VM database, and the row triggers that keep `vm_blobs.refcnt` in step with the chunk
    rows. The three chunk tables (`vm_file_chunks`, `vm_snapshot_chunks`, `vm_undo_chunks`) carry the same
    triggers, so they are one map keyed by the table a row is in. */
module Tables {
  type Name = string
  /** A normalized absolute path; `[]` is `/`. `p <= q` is "q is p or below p". */
  type Path = seq<Name>

  type Byte = b: nat | b < 256
  type Bytes = seq<Byte>

  datatype Option<+T> = None | Some(value: T)

  /** Raw SHA-256 of some content, idealized: distinct contents have distinct keys. */
  datatype Key = Sha256(preimage: Bytes)

  datatype Kind = File | Dir | Symlink

  /** One `vm_fs` row. */
  datatype Row = Row(kind: Kind, mode: nat, mtime: int, mtimeNs: int, size: nat, link: Option<string>,
                     hash: Option<Key>)

  /** The chunk table a row is in. */
  datatype Owner = Live | Snapshot(id: nat) | Undo(id: nat)
  /** The primary key of a chunk row. */
  datatype Slot = Slot(owner: Owner, path: Path, idx: nat)

  /** A stored block. zstd is idealized: decoding gives back the raw bytes, and a block written with a
      dictionary decodes only with that dictionary. */
  datatype Body = Plain(raw: Bytes) | Zstd(raw: Bytes) | ZstdDict(dict: Bytes, raw: Bytes)
  datatype Blob = Blob(body: Body, dictId: nat, refcnt: int)

  type Files = map<Path, Row>
  type Chunks = map<Slot, Key>
  type Blobs = map<Key, Blob>
  type Dicts = map<nat, Bytes>
  type Snapshots = map<nat, map<Path, Row>>
  type Undos = map<nat, map<Path, Option<Row>>>

  // ------------------------------------------------------------------ decoding

  /** A block decodes with the dictionary its row records, never with another one. */
  function Decode(dicts: Dicts, b: Blob): Option<Bytes> {
    match b.body
    case Plain(raw) => Some(raw)
    case Zstd(raw) => Some(raw)
    case ZstdDict(d, raw) => if b.dictId in dicts && dicts[b.dictId] == d then Some(raw) else None
  }

  ghost predicate DecodesAt(dicts: Dicts, blobs: Blobs, k: Key) {
    k in blobs ==> Decode(dicts, blobs[k]) == Some(k.preimage)
  }

  /** Every stored block decodes to the content its key names. */
  ghost predicate BlobsDecode(dicts: Dicts, blobs: Blobs) {
    forall k {:trigger DecodesAt(dicts, blobs, k)} :: DecodesAt(dicts, blobs, k)
  }

  // ------------------------------------------------------------------ reference counts

  function Refs(chunks: Chunks, k: Key): set<Slot> {
    set s | s in chunks && chunks[s] == k
  }

  /** How many chunk rows, of all three kinds, name `k`. */
  function Count(chunks: Chunks, k: Key): nat {
    |Refs(chunks, k)|
  }

  ghost predicate HasBlob(chunks: Chunks, blobs: Blobs, s: Slot) {
    s in chunks ==> chunks[s] in blobs
  }

  /** What `vm_verify --deep` recomputes: exact counts, and no chunk row without its blob. */
  ghost predicate RefOk(chunks: Chunks, blobs: Blobs) {
    && (forall k {:trigger Count(chunks, k)} :: k in blobs ==> blobs[k].refcnt == Count(chunks, k))
    && (forall s {:trigger HasBlob(chunks, blobs, s)} :: HasBlob(chunks, blobs, s))
  }

  /** The blobs no chunk row needs. */
  ghost function Idle(chunks: Chunks, blobs: Blobs): set<Key> {
    set k | k in blobs && Count(chunks, k) == 0
  }

  lemma CountPositive(chunks: Chunks, s: Slot)
    requires s in chunks
    ensures Count(chunks, chunks[s]) > 0
  {
    assert s in Refs(chunks, chunks[s]);
  }

  lemma NamedNotIdle(chunks: Chunks, blobs: Blobs, s: Slot)
    requires s in chunks
    ensures chunks[s] !in Idle(chunks, blobs)
  {
    CountPositive(chunks, s);
  }

  /** With exact counts, "no idle blob" is "every count is positive". */
  lemma IdleIsZeroCount(chunks: Chunks, blobs: Blobs)
    requires RefOk(chunks, blobs)
    ensures Idle(chunks, blobs) == {} <==> forall k :: k in blobs ==> blobs[k].refcnt > 0
  {
    forall k | k in blobs
      ensures k in Idle(chunks, blobs) <==> blobs[k].refcnt <= 0
    {
      assert blobs[k].refcnt == Count(chunks, k);
    }
  }

  /** The count a blob row shows, 0 when there is none. */
  ghost function RefAt(blobs: Blobs, k: Key): int {
    if k in blobs then blobs[k].refcnt else 0
  }

  // ------------------------------------------------------------------ the row triggers

  /** The blob table after `INSERT` of a chunk row naming `k`: its count goes up, if there is such a blob. */
  function Bump(blobs: Blobs, k: Key): Blobs {
    if k in blobs then blobs[k := blobs[k].(refcnt := blobs[k].refcnt + 1)] else blobs
  }

  /** The blob table after `DELETE` of a chunk row naming `k`: its count goes down, and a blob that reaches
      zero is dropped. */
  function Release(blobs: Blobs, k: Key): Blobs {
    if k !in blobs then blobs
    else if blobs[k].refcnt - 1 <= 0 then blobs - {k}
    else blobs[k := blobs[k].(refcnt := blobs[k].refcnt - 1)]
  }

  lemma CountInsert(chunks: Chunks, s: Slot, k: Key, j: Key)
    requires s !in chunks
    ensures Count(chunks[s := k], j) == Count(chunks, j) + (if j == k then 1 else 0)
  {
    if j == k {
      assert Refs(chunks[s := k], j) == Refs(chunks, j) + {s};
    } else {
      assert Refs(chunks[s := k], j) == Refs(chunks, j);
    }
  }

  lemma CountDelete(chunks: Chunks, s: Slot, j: Key)
    requires s in chunks
    ensures Count(chunks - {s}, j) == Count(chunks, j) - (if j == chunks[s] then 1 else 0)
  {
    assert chunks == (chunks - {s})[s := chunks[s]];
    CountInsert(chunks - {s}, s, chunks[s], j);
  }

  lemma InsertKeeps(chunks: Chunks, blobs: Blobs, s: Slot, k: Key)
    requires RefOk(chunks, blobs) && s !in chunks && k in blobs
    ensures RefOk(chunks[s := k], Bump(blobs, k))
    ensures Bump(blobs, k).Keys == blobs.Keys
    ensures Idle(chunks[s := k], Bump(blobs, k)) == Idle(chunks, blobs) - {k}
  {
    var c, b := chunks[s := k], Bump(blobs, k);
    forall j
      ensures j in b ==> b[j].refcnt == Count(c, j)
      ensures j in Idle(c, b) <==> j in Idle(chunks, blobs) - {k}
    {
      CountInsert(chunks, s, k, j);
    }
    forall r ensures HasBlob(c, b, r) {
      assert HasBlob(chunks, blobs, r);
    }
  }

  /** Dropping a row keeps the counts exact and leaves no new idle blob: the last reference takes its blob
      with it. */
  lemma DeleteKeeps(chunks: Chunks, blobs: Blobs, s: Slot)
    requires RefOk(chunks, blobs) && s in chunks
    ensures RefOk(chunks - {s}, Release(blobs, chunks[s]))
    ensures Idle(chunks - {s}, Release(blobs, chunks[s])) == Idle(chunks, blobs)
  {
    var k := chunks[s];
    var c, b := chunks - {s}, Release(blobs, k);
    assert HasBlob(chunks, blobs, s);
    CountPositive(chunks, s);
    forall j
      ensures j in b ==> b[j].refcnt == Count(c, j)
      ensures j in Idle(c, b) <==> j in Idle(chunks, blobs)
    {
      CountDelete(chunks, s, j);
    }
    forall r ensures HasBlob(c, b, r) {
      assert HasBlob(chunks, blobs, r);
      if r in c {
        CountPositive(c, r);
        CountDelete(chunks, s, c[r]);
      }
    }
  }

  // ------------------------------------------------------------------ blocks survive count changes

  lemma BumpDecodes(dicts: Dicts, blobs: Blobs, k: Key)
    requires BlobsDecode(dicts, blobs)
    ensures BlobsDecode(dicts, Bump(blobs, k)) && BlobsDecode(dicts, Release(blobs, k))
  {
    forall j
      ensures DecodesAt(dicts, Bump(blobs, k), j) && DecodesAt(dicts, Release(blobs, k), j)
    {
      assert DecodesAt(dicts, blobs, j);
    }
  }
}
