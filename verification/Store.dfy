/** Whole-path writes: a regular file in one go or from a stream, a directory, a link. A refused or failed
    write leaves the tables as they were. */
module Store {
  import opened Tables
  import opened Paths
  import opened Chunking
  import opened Trees
  import opened Policy
  import opened Connections
  import opened Worlds
  import opened Views
  import opened Rows

  // ------------------------------------------------------------------ blobs

  /** Some encoding of `data` that this database can decode: stored, compressed, or compressed with one of
      its dictionaries. Which one is chosen is a matter of size only. */
  method Encode(dicts: Dicts, data: Bytes) returns (body: Body, dictId: nat)
    ensures Decode(dicts, Blob(body, dictId, 0)) == Some(data)
  {
    body, dictId := Plain(data), 0;
    if * {
      body := Zstd(data);
    } else if dicts != map[] {
      var id :| id in dicts;
      body, dictId := ZstdDict(dicts[id], data), id;
    }
  }

  lemma EnsureKeeps(chunks: Chunks, blobs: Blobs, k: Key, b: Blob)
    requires RefOk(chunks, blobs) && k !in blobs && b.refcnt == 0
    ensures RefOk(chunks, blobs[k := b])
    ensures Idle(chunks, blobs[k := b]) == Idle(chunks, blobs) + {k}
  {
    var bl := blobs[k := b];
    assert Refs(chunks, k) == {} by {
      forall s | s in chunks ensures chunks[s] != k { assert HasBlob(chunks, blobs, s); }
    }
    forall s ensures HasBlob(chunks, bl, s) { assert HasBlob(chunks, blobs, s); }
    forall j ensures j in bl ==> bl[j].refcnt == Count(chunks, j) {}
  }

  lemma EnsureDecodes(blobs: Blobs, dicts: Dicts, k: Key, b: Blob)
    requires BlobsDecode(dicts, blobs) && Decode(dicts, b) == Some(k.preimage)
    ensures BlobsDecode(dicts, blobs[k := b])
  {
    var bl := blobs[k := b];
    forall j ensures DecodesAt(dicts, bl, j) { assert DecodesAt(dicts, blobs, j); }
  }

  /** A blob row for `data` exists afterwards; a new one starts with no reference. */
  method BlobEnsure(c: Connection, data: Bytes)
    modifies c`blobs
    ensures Sha256(data) in c.blobs
    ensures old(RefOk(c.chunks, c.blobs)) ==>
      RefOk(c.chunks, c.blobs) && Idle(c.chunks, c.blobs) <= old(Idle(c.chunks, c.blobs)) + {Sha256(data)}
    ensures old(BlobsDecode(c.dicts, c.blobs)) ==> BlobsDecode(c.dicts, c.blobs)
    ensures forall k {:trigger RefAt(c.blobs, k)} :: RefAt(c.blobs, k) == RefAt(old(c.blobs), k)
  {
    var key := Sha256(data);
    if key in c.blobs { return; }
    var body, dictId := Encode(c.dicts, data);
    if RefOk(c.chunks, c.blobs) { EnsureKeeps(c.chunks, c.blobs, key, Blob(body, dictId, 0)); }
    if BlobsDecode(c.dicts, c.blobs) { EnsureDecodes(c.blobs, c.dicts, key, Blob(body, dictId, 0)); }
    c.blobs := c.blobs[key := Blob(body, dictId, 0)];
  }

  /** Insert the chunk row `s` for `piece`, storing the blob if it is new. */
  method InsertPiece(c: Connection, s: Slot, piece: Bytes)
    requires s !in c.chunks
    modifies c`chunks, c`blobs
    ensures BlobsKept(c)
    ensures c.chunks == old(c.chunks)[s := Sha256(piece)]
  {
    BlobEnsure(c, piece);
    InsertOne(c.chunks, c.blobs, c.dicts, s, Sha256(piece));
    c.blobs := Bump(c.blobs, Sha256(piece));
    c.chunks := c.chunks[s := Sha256(piece)];
  }

  // ------------------------------------------------------------------ a file's chunk list

  /** Slot `s` when the first `n` chunk rows of `p` are the pieces of `data`. */
  ghost predicate FilledAt(a: Chunks, b: Chunks, p: Path, data: Bytes, n: nat, s: Slot) {
    if s.owner == Live && s.path == p
    then (s in b <==> s.idx < n) && (s in b ==> b[s] == Sha256(Piece(data, s.idx)))
    else (s in b <==> s in a) && (s in b ==> b[s] == a[s])
  }

  ghost predicate Filled(a: Chunks, b: Chunks, p: Path, data: Bytes, n: nat) {
    forall s {:trigger FilledAt(a, b, p, data, n, s)} :: FilledAt(a, b, p, data, n, s)
  }

  lemma FilledNone(a: Chunks, b: Chunks, p: Path, data: Bytes)
    requires Dropped(a, b, Live, {p})
    ensures Filled(a, b, p, data, 0)
  {
    forall s ensures FilledAt(a, b, p, data, 0, s) { assert DroppedAt(a, b, Live, {p}, s); }
  }

  lemma FilledMore(a: Chunks, b: Chunks, p: Path, data: Bytes, n: nat)
    requires Filled(a, b, p, data, n)
    ensures Filled(a, b[Slot(Live, p, n) := Sha256(Piece(data, n))], p, data, n + 1)
  {
    var d, m := b[Slot(Live, p, n) := Sha256(Piece(data, n))], n + 1;
    forall s ensures FilledAt(a, d, p, data, m, s) { assert FilledAt(a, b, p, data, n, s); }
  }

  /** Replace the chunk list of `p` by the pieces of `data`. The old rows go first: each releases its blob. */
  method ChunksReplace(c: Connection, p: Path, data: Bytes)
    modifies c`chunks, c`blobs
    ensures BlobsKept(c)
    ensures Filled(old(c.chunks), c.chunks, p, data, NumChunks(|data|))
  {
    DropSlots(c, Live, {p});
    FilledNone(old(c.chunks), c.chunks, p, data);
    var i := 0;
    while i < NumChunks(|data|)
      invariant i <= NumChunks(|data|)
      invariant BlobsKept(c) && Filled(old(c.chunks), c.chunks, p, data, i)
    {
      assert FilledAt(old(c.chunks), c.chunks, p, data, i, Slot(Live, p, i));
      FilledMore(old(c.chunks), c.chunks, p, data, i);
      InsertPiece(c, Slot(Live, p, i), Piece(data, i));
      i := i + 1;
    }
  }

  // ------------------------------------------------------------------ the row

  /** `INSERT … ON CONFLICT DO UPDATE` of one row, under the policy triggers. */
  method UpsertRow(c: Connection, p: Path, row: Row) returns (ok: bool)
    modifies c`fs, c`logical
    ensures ok <==> !Refused(c.rules, old(c.fs), old(c.logical), p, row)
    ensures !ok ==> c.fs == old(c.fs) && c.logical == old(c.logical)
    ensures ok ==> c.fs == old(c.fs)[p := row]
    ensures ok && old(c.logical) == Total(old(c.fs)) ==> c.logical == Total(c.fs)
  {
    ok := !Refused(c.rules, c.fs, c.logical, p, row);
    if ok {
      TotalWith(c.fs, p, row);
      c.logical := c.logical - WeightAt(c.fs, p) + Weight(row);
      c.fs := c.fs[p := row];
    }
  }

  lemma FilledRooted(fs: Files, a: Chunks, b: Chunks, snaps: Snapshots, undos: Undos, p: Path, row: Row, data: Bytes,
                     n: nat)
    requires Rooted(fs, a, snaps, undos) && Filled(a, b, p, data, n)
    ensures Rooted(fs[p := row], b, snaps, undos)
  {
    var f := fs[p := row];
    forall s ensures RootedAt(f, b, snaps, undos, s) {
      assert RootedAt(fs, a, snaps, undos, s);
      assert FilledAt(a, b, p, data, n, s);
    }
  }

  function FileRow(mode: nat, mtime: int, ns: int, data: Bytes): Row {
    Row(File, mode, mtime, ns, |data|, None, Some(Sha256(data)))
  }

  /** The nanosecond stamp a plain put leaves: the row's own, 0 for a new row. */
  function KeptNs(fs: Files, p: Path): int {
    if p in fs then fs[p].mtimeNs else 0
  }

  /** Write a regular file. The chunk rows are replaced before the row is checked against the policy, so a
      refusal rolls real work back. */
  method PutFile(c: Connection, p: Path, mode: nat, mtime: int, data: Bytes) returns (ok: bool)
    requires Shaped(c)
    modifies c`fs, c`chunks, c`blobs, c`logical
    ensures Shaped(c) && BlobsKept(c)
    ensures ok <==> !Refused(c.rules, old(c.fs), old(c.logical), p, FileRow(mode, mtime, KeptNs(old(c.fs), p), data))
    ensures ok ==> c.fs == old(c.fs)[p := FileRow(mode, mtime, KeptNs(old(c.fs), p), data)]
    ensures ok ==>
      && p in c.fs && c.fs[p].kind == File && c.fs[p].mode == mode && c.fs[p].mtime == mtime
      && c.fs[p].mtimeNs == (if p in old(c.fs) then old(c.fs)[p].mtimeNs else 0)
      && c.fs[p].size == |data| && c.fs[p].link.None? && c.fs[p].hash == Some(Sha256(data))
    ensures ok ==> Filled(old(c.chunks), c.chunks, p, data, NumChunks(|data|))
    ensures !ok ==> SameTables(c)
  {
    var savedChunks, savedBlobs := c.chunks, c.blobs;
    ghost var fs := c.fs;
    ChunksReplace(c, p, data);
    ok := UpsertRow(c, p, FileRow(mode, mtime, KeptNs(c.fs, p), data));
    if ok {
      FilledRooted(fs, savedChunks, c.chunks, c.snaps, c.undos, p, c.fs[p], data, NumChunks(|data|));
    } else {
      c.chunks, c.blobs := savedChunks, savedBlobs;
    }
  }

  // ------------------------------------------------------------------ a file from a stream

  /** A reader over `data` that fails once `broken` bytes were delivered, if that many ever are. */
  datatype Source = Source(data: Bytes, broken: Option<nat>) {
    predicate Fails() { broken.Some? && broken.value <= |data| }
  }

  /** Fill one chunk from position `at`. Each read may deliver fewer bytes than asked for. */
  method FillChunk(src: Source, at: nat) returns (r: Option<Bytes>)
    requires at <= |src.data| && (src.Fails() ==> at <= src.broken.value)
    ensures r.None? <==> src.Fails() && src.broken.value < at + CHUNK_SIZE
    ensures r.Some? ==> r.value == src.data[at..Min(at + CHUNK_SIZE, |src.data|)]
  {
    var buf: Bytes := [];
    while |buf| < CHUNK_SIZE
      invariant |buf| <= CHUNK_SIZE && at + |buf| <= |src.data| && buf == src.data[at..at + |buf|]
      invariant src.Fails() ==> at + |buf| <= src.broken.value
      decreases CHUNK_SIZE - |buf|
    {
      var d := at + |buf|;
      if src.broken == Some(d) { return None; }
      if d == |src.data| { break; }
      var limit := if src.Fails() then src.broken.value else |src.data|;
      var n :| 1 <= n <= CHUNK_SIZE - |buf| && d + n <= limit;
      buf := buf + src.data[d..d + n];
    }
    r := Some(buf);
  }

  /** Store each chunk as it is read. On a read error the rows written so far are left to the caller. */
  method StreamChunks(c: Connection, p: Path, src: Source) returns (ok: bool)
    modifies c`chunks, c`blobs
    ensures BlobsKept(c)
    ensures ok <==> !src.Fails()
    ensures ok ==> Filled(old(c.chunks), c.chunks, p, src.data, NumChunks(|src.data|))
  {
    DropSlots(c, Live, {p});
    FilledNone(old(c.chunks), c.chunks, p, src.data);
    var i, at := 0, 0;
    while true
      invariant at == i * CHUNK_SIZE <= |src.data| && (src.Fails() ==> at <= src.broken.value)
      invariant BlobsKept(c) && Filled(old(c.chunks), c.chunks, p, src.data, i)
      decreases |src.data| - at
    {
      var piece := FillChunk(src, at);
      if piece.None? { return false; }
      if piece.value == [] { return true; }
      assert piece.value == Piece(src.data, i);
      assert FilledAt(old(c.chunks), c.chunks, p, src.data, i, Slot(Live, p, i));
      FilledMore(old(c.chunks), c.chunks, p, src.data, i);
      InsertPiece(c, Slot(Live, p, i), piece.value);
      if |piece.value| < CHUNK_SIZE { return true; }
      i, at := i + 1, at + |piece.value|;
    }
  }

  /** Write a regular file from a reader: for every pattern of short reads it leaves what a plain put of the
      whole content leaves, and a read error or a refusal leaves the previous file intact. */
  method PutStream(c: Connection, p: Path, mode: nat, mtime: int, ns: int, src: Source) returns (ok: bool)
    requires Shaped(c)
    modifies c`fs, c`chunks, c`blobs, c`logical
    ensures Shaped(c) && BlobsKept(c)
    ensures ok <==> !src.Fails() && !Refused(c.rules, old(c.fs), old(c.logical), p, FileRow(mode, mtime, ns, src.data))
    ensures ok ==> c.fs == old(c.fs)[p := FileRow(mode, mtime, ns, src.data)]
    ensures ok ==>
      && p in c.fs && c.fs[p].kind == File && c.fs[p].mode == mode && c.fs[p].mtime == mtime && c.fs[p].mtimeNs == ns
      && c.fs[p].size == |src.data| && c.fs[p].link.None? && c.fs[p].hash == Some(Sha256(src.data))
    ensures ok ==> Filled(old(c.chunks), c.chunks, p, src.data, NumChunks(|src.data|))
    ensures !ok ==> SameTables(c)
  {
    var savedChunks, savedBlobs := c.chunks, c.blobs;
    ghost var fs := c.fs;
    ok := StreamChunks(c, p, src);
    if ok {
      ok := UpsertRow(c, p, FileRow(mode, mtime, ns, src.data));
    }
    if ok {
      FilledRooted(fs, savedChunks, c.chunks, c.snaps, c.undos, p, c.fs[p], src.data, NumChunks(|src.data|));
    } else {
      c.chunks, c.blobs := savedChunks, savedBlobs;
    }
  }

  // ------------------------------------------------------------------ directories and links

  function NodeRow(kind: Kind, mode: nat, mtime: int, ns: int, link: Option<string>): Row {
    Row(kind, mode, mtime, ns, 0, link, None)
  }

  /** Write a directory or a link over the path; a file it replaces gives its chunk references back. */
  method PutNode(c: Connection, p: Path, kind: Kind, mode: nat, mtime: int, link: Option<string>) returns (ok: bool)
    requires Shaped(c) && kind != File
    modifies c`fs, c`chunks, c`blobs, c`logical
    ensures Shaped(c) && BlobsKept(c)
    ensures ok <==> !Protected(c.rules, p)
    ensures ok ==> c.fs == old(c.fs)[p := NodeRow(kind, mode, mtime, KeptNs(old(c.fs), p), link)]
    ensures ok ==>
      && p in c.fs && c.fs[p].kind == kind && c.fs[p].mode == mode && c.fs[p].mtime == mtime
      && c.fs[p].mtimeNs == (if p in old(c.fs) then old(c.fs)[p].mtimeNs else 0)
      && c.fs[p].size == 0 && c.fs[p].link == link && c.fs[p].hash.None?
    ensures ok ==> Filled(old(c.chunks), c.chunks, p, [], 0)
    ensures !ok ==> SameTables(c)
  {
    var savedChunks, savedBlobs := c.chunks, c.blobs;
    ghost var fs := c.fs;
    DropSlots(c, Live, {p});
    FilledNone(savedChunks, c.chunks, p, []);
    ok := UpsertRow(c, p, NodeRow(kind, mode, mtime, KeptNs(c.fs, p), link));
    if ok {
      FilledRooted(fs, savedChunks, c.chunks, c.snaps, c.undos, p, c.fs[p], [], 0);
    } else {
      c.chunks, c.blobs := savedChunks, savedBlobs;
    }
  }

  // ------------------------------------------------------------------ missing parents

  function WithDirs(fs: Files, ps: set<Path>, dir: Row): Files {
    map q | q in fs.Keys + ps :: if q in fs then fs[q] else dir
  }

  lemma WithNoDirs(fs: Files, dir: Row)
    ensures WithDirs(fs, {}, dir) == fs
  {
  }

  lemma WithMoreDirs(fs: Files, ps: set<Path>, dir: Row, q: Path)
    ensures WithDirs(fs, ps + {q}, dir) == var f := WithDirs(fs, ps, dir); if q in f then f else f[q := dir]
  {
  }

  /** `INSERT OR IGNORE` of a directory row. */
  method EnsureDir(c: Connection, q: Path, dir: Row) returns (ok: bool)
    requires Shaped(c)
    modifies c`fs, c`logical
    ensures Shaped(c)
    ensures ok <==> q in old(c.fs) || !Refused(c.rules, old(c.fs), old(c.logical), q, dir)
    ensures c.fs == if ok && q !in old(c.fs) then old(c.fs)[q := dir] else old(c.fs)
    ensures !ok ==> c.logical == old(c.logical)
  {
    if q in c.fs { return true; }
    ghost var fs := c.fs;
    ok := UpsertRow(c, q, dir);
    if ok { MoreRooted(fs, c.chunks, c.snaps, c.undos, q, dir); }
  }

  lemma MoreRooted(fs: Files, a: Chunks, snaps: Snapshots, undos: Undos, q: Path, row: Row)
    requires Rooted(fs, a, snaps, undos)
    ensures Rooted(fs[q := row], a, snaps, undos)
  {
    var f := fs[q := row];
    forall s ensures RootedAt(f, a, snaps, undos, s) { assert RootedAt(fs, a, snaps, undos, s); }
  }

  /** Parent directories of `p` that have no row, inserted from the top down; `made` are the parents reached. A
      refusal leaves those already inserted. */
  method EnsureParentDirs(c: Connection, p: Path, dir: Row) returns (ok: bool, ghost made: set<Path>)
    requires Shaped(c)
    modifies c`fs, c`logical
    ensures Shaped(c)
    ensures c.fs == WithDirs(old(c.fs), made, dir) && made <= Above(p)
    ensures ok ==> made == Above(p)
    ensures c.rules == [] ==> ok
    ensures !ok ==> exists q :: q in Above(p) && q !in c.fs && Refused(c.rules, c.fs, c.logical, q, dir)
    ensures ok ==> forall q :: q in Above(p) && q !in old(c.fs) ==> !Protected(old(c.rules), q)
  {
    var i := 1;
    made := {};
    WithNoDirs(c.fs, dir);
    while i < |p|
      invariant 1 <= i && (i <= |p| || i == 1)
      invariant Shaped(c) && c.fs == WithDirs(old(c.fs), made, dir)
      invariant made == set j | 0 < j < i :: p[..j]
      invariant forall q :: q in made && q !in old(c.fs) ==> !Protected(c.rules, q)
    {
      WithMoreDirs(old(c.fs), made, dir, p[..i]);
      ok := EnsureDir(c, p[..i], dir);
      if !ok {
        assert p[..i] in Above(p);
        return;
      }
      made := made + {p[..i]};
      i := i + 1;
    }
    assert made == Above(p);
    ok := true;
  }

  // ------------------------------------------------------------------ what a put means

  lemma FilledList(a: Chunks, b: Chunks, p: Path, data: Bytes, q: Path)
    requires Filled(a, b, p, data, NumChunks(|data|))
    ensures List(b, Live, q) == if q == p then ListOf(data) else List(a, Live, q)
  {
    if q == p {
      var l, m := List(b, Live, q), ListOf(data);
      forall i: nat
        ensures (i in l <==> i in m) && (i in l ==> l[i] == m[i])
      {
        assert FilledAt(a, b, p, data, NumChunks(|data|), Slot(Live, p, i));
      }
    } else {
      forall i: nat ensures SameSlot(b, Live, a, Live, q, i) {
        assert FilledAt(a, b, p, data, NumChunks(|data|), Slot(Live, q, i));
      }
      SameList(b, Live, a, Live, q);
    }
  }

  lemma FilledKept(a: Chunks, b: Chunks, p: Path, data: Bytes, n: nat)
    requires Filled(a, b, p, data, n)
    ensures Kept(a, b, Live)
  {
    forall s ensures KeptSlot(a, b, Live, s) { assert FilledAt(a, b, p, data, n, s); }
  }

  lemma FilledTree(fs: Files, a: Chunks, b: Chunks, p: Path, row: Row, data: Bytes)
    requires Filled(a, b, p, data, NumChunks(|data|))
    ensures TreeOf(fs[p := row], b, Live) == TreeOf(fs, a, Live)[p := Entry(row, ListOf(data))]
  {
    var s, t := TreeOf(fs[p := row], b, Live), TreeOf(fs, a, Live)[p := Entry(row, ListOf(data))];
    forall q ensures At(s, q) == At(t, q) { FilledList(a, b, p, data, q); }
    SameTree(s, t);
  }

  /** A put replaces one entry of the live tree by an exact one and changes nothing else. */
  lemma PutRefines(fs: Files, a: Chunks, b: Chunks, dirty: set<Path>, snaps: Snapshots, undos: Undos,
                   p: Path, row: Row, data: Bytes)
    requires Filled(a, b, p, data, NumChunks(|data|))
    requires row.size == |data| && if row.kind == File then row.hash == Some(Sha256(data)) else data == []
    ensures Exact(Entry(row, ListOf(data)))
    ensures ViewOf(fs[p := row], b, dirty, snaps, undos) ==
      Step(ViewOf(fs, a, dirty, snaps, undos), Put(p, Entry(row, ListOf(data))))
  {
    if row.kind == File { Holds(Entry(row, ListOf(data)), data); }
    FilledKept(a, b, p, data, NumChunks(|data|));
    LiveChange(fs, a, dirty, fs[p := row], b, dirty, snaps, undos);
    FilledTree(fs, a, b, p, row, data);
  }
}
