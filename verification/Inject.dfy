/** Injecting a package: another database merged into this one in one transaction, path by path, with its
    dictionaries under new ids. */
module Inject {
  import opened Tables
  import opened Chunking
  import opened Trees
  import opened Policy
  import opened Connections
  import opened Views
  import opened Rows
  import opened Read
  import opened Store
  import opened Hashes
  import opened UndoRecords
  import opened Verify
  import Worlds

  /** A package database, attached read-only. Its dictionary ids are its own; 0 means no dictionary. */
  datatype Package = Package(fs: Files, chunks: Chunks, blobs: Blobs, dicts: Dicts, pending: set<Path>)

  /** Every block of the package decodes with the package's own dictionaries. */
  ghost predicate PackageOk(pkg: Package) {
    BlobsDecode(pkg.dicts, pkg.blobs) && 0 !in pkg.dicts
  }

  // ------------------------------------------------------------------ dictionaries

  /** Every dictionary the package's blocks name is among `ids`. */
  ghost predicate DictsIn(pkg: Package, ids: set<nat>) {
    forall k {:trigger pkg.blobs[k]} ::
      k in pkg.blobs && pkg.blobs[k].dictId != 0 ==> pkg.blobs[k].dictId in ids
  }

  ghost predicate MappedAt(pkg: Package, dicts: Dicts, ids: map<nat, nat>, id: nat) {
    id in ids ==> id in pkg.dicts && ids[id] in dicts && dicts[ids[id]] == pkg.dicts[id]
  }

  /** `ids` sends package dictionary ids to ids of this database that hold the same dictionary. */
  ghost predicate Mapped(pkg: Package, dicts: Dicts, ids: map<nat, nat>) {
    forall id {:trigger MappedAt(pkg, dicts, ids, id)} :: MappedAt(pkg, dicts, ids, id)
  }

  ghost predicate KeptDictAt(dicts: Dicts, dicts': Dicts, id: nat) {
    id in dicts ==> id in dicts' && dicts'[id] == dicts[id]
  }

  /** Dictionaries are only ever added. */
  ghost predicate Appended(dicts: Dicts, dicts': Dicts) {
    forall id {:trigger KeptDictAt(dicts, dicts', id)} :: KeptDictAt(dicts, dicts', id)
  }

  /** Blocks keep decoding when dictionaries are appended. */
  lemma AppendedDecodes(dicts: Dicts, dicts': Dicts, blobs: Blobs)
    requires BlobsDecode(dicts, blobs) && Appended(dicts, dicts')
    ensures BlobsDecode(dicts', blobs)
  {
    forall k ensures DecodesAt(dicts', blobs, k) {
      assert DecodesAt(dicts, blobs, k);
      if k in blobs { assert KeptDictAt(dicts, dicts', blobs[k].dictId); }
    }
  }

  /** Append a dictionary under a new id. */
  method SetDict(c: Connection, dict: Bytes) returns (id: nat)
    modifies c`dicts
    ensures id !in old(c.dicts) && c.dicts == old(c.dicts)[id := dict] && Appended(old(c.dicts), c.dicts)
  {
    id := NextId(c.dicts.Keys);
    ghost var dicts := c.dicts;
    c.dicts := c.dicts[id := dict];
    forall i ensures KeptDictAt(dicts, c.dicts, i) {}
  }

  /** Append every dictionary the package's blocks name. */
  method MapDicts(c: Connection, pkg: Package) returns (r: Option<map<nat, nat>>)
    modifies c`dicts
    ensures Appended(old(c.dicts), c.dicts)
    ensures r.Some? ==> Mapped(pkg, c.dicts, r.value) && 0 !in r.value
    ensures r.Some? ==>
        forall k {:trigger pkg.blobs[k]} ::
          k in pkg.blobs && pkg.blobs[k].dictId != 0 ==> pkg.blobs[k].dictId in r.value
    ensures r.None? ==> exists k :: k in pkg.blobs && pkg.blobs[k].dictId != 0 && pkg.blobs[k].dictId !in pkg.dicts
  {
    var todo := set k | k in pkg.blobs && pkg.blobs[k].dictId != 0 :: pkg.blobs[k].dictId;
    ghost var needed := todo;
    var ids: map<nat, nat> := map[];
    forall i ensures KeptDictAt(c.dicts, c.dicts, i) && MappedAt(pkg, c.dicts, ids, i) {}
    while todo != {}
      invariant Appended(old(c.dicts), c.dicts) && Mapped(pkg, c.dicts, ids)
      invariant todo <= needed && 0 !in ids && forall i {:trigger i in needed} :: i in needed && i !in todo ==> i in ids
      decreases |todo|
    {
      var pid :| pid in todo;
      if pid !in pkg.dicts {
        ghost var k :| k in pkg.blobs && pkg.blobs[k].dictId != 0 && pkg.blobs[k].dictId == pid;
        return None;
      }
      ghost var was, m := c.dicts, ids;
      var id := SetDict(c, pkg.dicts[pid]);
      ids := ids[pid := id];
      forall i ensures KeptDictAt(old(c.dicts), c.dicts, i) { assert KeptDictAt(old(c.dicts), was, i); }
      forall i ensures MappedAt(pkg, c.dicts, ids, i) { assert MappedAt(pkg, was, m, i); }
      todo := todo - {pid};
    }
    forall k {:trigger pkg.blobs[k]} | k in pkg.blobs && pkg.blobs[k].dictId != 0 ensures pkg.blobs[k].dictId in ids {
      assert pkg.blobs[k].dictId in needed;
    }
    r := Some(ids);
  }

  // ------------------------------------------------------------------ the blocks of one path

  /** Why the ids are mapped: under its old id a block compressed with a dictionary is lost where that id is unused
      or another dictionary's. */
  lemma UnmappedLost(pkg: Package, dicts: Dicts, k: Key, d: Bytes, raw: Bytes)
    requires k in pkg.blobs && pkg.blobs[k].body == ZstdDict(d, raw)
    requires pkg.blobs[k].dictId !in dicts || dicts[pkg.blobs[k].dictId] != d
    ensures Decode(dicts, pkg.blobs[k]).None?
  {
  }

  /** A package block under its new dictionary id decodes to the same bytes here. */
  lemma RemappedDecodes(pkg: Package, dicts: Dicts, ids: map<nat, nat>, k: Key, id: nat)
    requires PackageOk(pkg) && Mapped(pkg, dicts, ids) && k in pkg.blobs
    requires id == if pkg.blobs[k].dictId in ids then ids[pkg.blobs[k].dictId] else 0
    requires pkg.blobs[k].dictId == 0 || pkg.blobs[k].dictId in ids
    ensures Decode(dicts, Blob(pkg.blobs[k].body, id, 0)) == Some(k.preimage)
  {
    assert DecodesAt(pkg.dicts, pkg.blobs, k);
    assert MappedAt(pkg, dicts, ids, pkg.blobs[k].dictId);
  }

  /** If the blocks `blobs` of this database and those of the package decode, so do the blocks here now. */
  ghost predicate DecodesAfter(blobs: Blobs, c: Connection, pkg: Package)
    reads c
  {
    PackageOk(pkg) && BlobsDecode(c.dicts, blobs) ==> BlobsDecode(c.dicts, c.blobs)
  }

  /** Copy the blocks `keys` names that the package has and this database lacks, with no reference yet. */
  method CopyBlobs(c: Connection, pkg: Package, ids: map<nat, nat>, keys: set<Key>) returns (ok: bool)
    requires RefOk(c.chunks, c.blobs) && Mapped(pkg, c.dicts, ids) && 0 !in ids
    modifies c`blobs
    ensures RefOk(c.chunks, c.blobs) && DecodesAfter(old(c.blobs), c, pkg)
    ensures ok ==> forall k {:trigger k in keys} :: k in keys && k in pkg.blobs ==> k in c.blobs
    ensures forall k {:trigger k in c.blobs} :: k in old(c.blobs) ==> k in c.blobs
    ensures Idle(c.chunks, c.blobs) <= old(Idle(c.chunks, c.blobs)) + keys
    ensures DictsIn(pkg, ids.Keys) ==> ok
  {
    var todo := keys;
    while todo != {}
      invariant todo <= keys && RefOk(c.chunks, c.blobs) && DecodesAfter(old(c.blobs), c, pkg)
      invariant forall k {:trigger k in keys} :: k in keys && k !in todo && k in pkg.blobs ==> k in c.blobs
      invariant forall k {:trigger k in c.blobs} :: k in old(c.blobs) ==> k in c.blobs
      invariant Idle(c.chunks, c.blobs) <= old(Idle(c.chunks, c.blobs)) + keys
      decreases |todo|
    {
      var k :| k in todo;
      if k in pkg.blobs && k !in c.blobs {
        var b := pkg.blobs[k];
        if b.dictId != 0 && b.dictId !in ids { return false; }
        var id := if b.dictId in ids then ids[b.dictId] else 0;
        EnsureKeeps(c.chunks, c.blobs, k, Blob(b.body, id, 0));
        if PackageOk(pkg) && BlobsDecode(c.dicts, c.blobs) {
          RemappedDecodes(pkg, c.dicts, ids, k, id);
          EnsureDecodes(c.blobs, c.dicts, k, Blob(b.body, id, 0));
        }
        c.blobs := c.blobs[k := Blob(b.body, id, 0)];
      }
      todo := todo - {k};
    }
    ok := true;
  }

  // ------------------------------------------------------------------ one path

  ghost predicate SameSlotRow(b: Chunks, a: Chunks, s: Slot) {
    (s in b <==> s in a) && (s in b ==> b[s] == a[s])
  }

  ghost predicate InjectedAt(a: Chunks, b: Chunks, pkg: Package, ps: set<Path>, s: Slot) {
    if s.owner == Live && s.path in ps then SameSlotRow(b, pkg.chunks, s) else SameSlotRow(b, a, s)
  }

  /** The live chunk rows of the paths `ps` are the package's, everything else is as it was. */
  ghost predicate Injected(a: Chunks, b: Chunks, pkg: Package, ps: set<Path>) {
    forall s {:trigger InjectedAt(a, b, pkg, ps, s)} :: InjectedAt(a, b, pkg, ps, s)
  }

  lemma InjectedOne(a: Chunks, m: Chunks, rows: Chunks, pkg: Package, p: Path)
    requires Dropped(a, m, Live, {p})
    requires forall s {:trigger PackageRowAt(pkg, rows, p, s)} :: PackageRowAt(pkg, rows, p, s)
    ensures Injected(a, m + rows, pkg, {p}) && rows.Keys !! m.Keys
  {
    var b := m + rows;
    forall s ensures InjectedAt(a, b, pkg, {p}, s) {
      assert DroppedAt(a, m, Live, {p}, s) && PackageRowAt(pkg, rows, p, s);
    }
    forall s | s in rows ensures s !in m { assert DroppedAt(a, m, Live, {p}, s) && PackageRowAt(pkg, rows, p, s); }
  }

  ghost predicate PackageRowAt(pkg: Package, rows: Chunks, p: Path, s: Slot) {
    if s.owner == Live && s.path == p then SameSlotRow(rows, pkg.chunks, s) else s !in rows
  }

  lemma InjectRooted(fs: Files, a: Chunks, b: Chunks, snaps: Snapshots, undos: Undos, pkg: Package, p: Path, row: Row)
    requires Rooted(fs, a, snaps, undos) && Injected(a, b, pkg, {p})
    ensures Rooted(fs[p := row], b, snaps, undos)
  {
    var f := fs[p := row];
    forall s ensures RootedAt(f, b, snaps, undos, s) {
      assert RootedAt(fs, a, snaps, undos, s) && InjectedAt(a, b, pkg, {p}, s);
    }
  }

  /** The package has the block of every chunk row, and `ids` covers every dictionary its blocks name. */
  ghost predicate Complete(pkg: Package, ids: map<nat, nat>) {
    && (forall s {:trigger HasBlob(pkg.chunks, pkg.blobs, s)} :: HasBlob(pkg.chunks, pkg.blobs, s))
    && DictsIn(pkg, ids.Keys)
  }

  /** Attach the package's chunk rows of `p`. A row whose block neither database has makes the merge fail. */
  method AttachChunks(c: Connection, pkg: Package, ids: map<nat, nat>, p: Path, ghost a: Chunks) returns (ok: bool)
    requires RefOk(c.chunks, c.blobs) && Idle(c.chunks, c.blobs) == {} && Dropped(a, c.chunks, Live, {p})
    requires Mapped(pkg, c.dicts, ids) && 0 !in ids
    modifies c`chunks, c`blobs
    ensures ok ==> RefOk(c.chunks, c.blobs) && Idle(c.chunks, c.blobs) == {} && Injected(a, c.chunks, pkg, {p})
    ensures DecodesAfter(old(c.blobs), c, pkg)
    ensures Complete(pkg, ids) ==> ok
  {
    var rows := map s | s in pkg.chunks && s.owner == Live && s.path == p :: pkg.chunks[s];
    ok := CopyBlobs(c, pkg, ids, rows.Values);
    if !ok { return; }
    ok := forall s :: s in rows ==> rows[s] in c.blobs;
    if !ok {
      ghost var s :| s in rows && rows[s] !in c.blobs;
      assert rows[s] in rows.Values && !HasBlob(pkg.chunks, pkg.blobs, s);
      return;
    }
    ghost var m := c.chunks;
    forall s ensures PackageRowAt(pkg, rows, p, s) {}
    InjectedOne(a, m, rows, pkg, p);
    c.InsertSlots(rows);
    forall k | k in Idle(c.chunks, c.blobs) ensures false {
      if k in rows.Values {
        var s :| s in rows && rows[s] == k;
        assert c.chunks[s] == k;
        NamedNotIdle(c.chunks, c.blobs, s);
      }
    }
  }

  /** The rules refuse the package's row at `p` once the row it replaces is gone. */
  ghost predicate RowRefused(rules: seq<Rule>, fs: Files, pkg: Package, p: Path) {
    p in pkg.fs && Refused(rules, fs - {p}, Total(fs - {p}), p, pkg.fs[p])
  }

  /** Replace one path by the package's: the old row goes first and releases its blocks, then the package's
      row, its blocks and its chunk rows come in. */
  method InjectPath(c: Connection, pkg: Package, ids: map<nat, nat>, p: Path) returns (ok: bool)
    requires Counted(c) && p in pkg.fs && Mapped(pkg, c.dicts, ids) && 0 !in ids
    modifies c`fs, c`chunks, c`blobs, c`dirty, c`logical
    ensures DecodesAfter(old(c.blobs), c, pkg)
    ensures ok ==> QuotaKept(c)
    ensures ok ==>
      && Counted(c) && c.fs == old(c.fs)[p := pkg.fs[p]] && c.dirty == old(c.dirty) - {p}
      && Injected(old(c.chunks), c.chunks, pkg, {p})
    ensures c.rules == [] && Complete(pkg, ids) ==> ok
    ensures !ok && Complete(pkg, ids) ==> RowRefused(old(c.rules), old(c.fs), pkg, p)
    ensures ok ==> !RowRefused(old(c.rules), old(c.fs), pkg, p)
  {
    ghost var fs, a := c.fs, c.chunks;
    ok := p !in c.fs || !Protected(c.rules, p);
    if !ok { return; }
    DropPath(c, p);
    ghost var less, logical := c.fs, c.logical;
    ok := UpsertRow(c, p, pkg.fs[p]);
    if !ok { return; }
    TotalWith(less, p, pkg.fs[p]);
    if InQuota(c.rules, logical) { AcceptedInQuota(c.rules, less, logical, p, pkg.fs[p]); }
    assert c.fs == fs[p := pkg.fs[p]];
    ok := AttachChunks(c, pkg, ids, p, a);
    if !ok { return; }
    InjectRooted(fs, a, c.chunks, c.snaps, c.undos, pkg, p, pkg.fs[p]);
  }

  // ------------------------------------------------------------------ the merge

  ghost predicate MergedAt(fs: Files, m: Files, pkg: Package, ps: set<Path>, q: Path) {
    if q in ps && q in pkg.fs then q in m && m[q] == pkg.fs[q]
    else (q in m <==> q in fs) && (q in m ==> m[q] == fs[q])
  }

  /** The rows `fs` overridden by the package's rows at the paths `ps`. */
  ghost predicate Merged(fs: Files, m: Files, pkg: Package, ps: set<Path>) {
    forall q {:trigger MergedAt(fs, m, pkg, ps, q)} :: MergedAt(fs, m, pkg, ps, q)
  }

  lemma MergedMore(fs: Files, a: Chunks, m: Files, b: Chunks, d: Chunks, pkg: Package, ps: set<Path>, p: Path)
    requires Merged(fs, m, pkg, ps) && Injected(a, b, pkg, ps) && Injected(b, d, pkg, {p}) && p in pkg.fs
    ensures Merged(fs, m[p := pkg.fs[p]], pkg, ps + {p}) && Injected(a, d, pkg, ps + {p})
  {
    var m', more := m[p := pkg.fs[p]], ps + {p};
    forall q ensures MergedAt(fs, m', pkg, more, q) { assert MergedAt(fs, m, pkg, ps, q); }
    forall s ensures InjectedAt(a, d, pkg, more, s) {
      assert InjectedAt(a, b, pkg, ps, s) && InjectedAt(b, d, pkg, {p}, s);
    }
  }

  /** The tables a merge starts from. */
  datatype Before = Before(fs: Files, chunks: Chunks, blobs: Blobs, dirty: set<Path>, logical: int)

  /** Where a merge stands once the paths `ps` are injected. */
  ghost predicate Reached(c: Connection, was: Before, pkg: Package, ps: set<Path>)
    reads c
  {
    && Counted(c) && c.dirty == was.dirty - ps && Merged(was.fs, c.fs, pkg, ps)
    && Injected(was.chunks, c.chunks, pkg, ps) && DecodesAfter(was.blobs, c, pkg)
    && (InQuota(c.rules, was.logical) ==> InQuota(c.rules, c.logical)) && PassRules(c.rules, pkg, ps)
  }

  ghost predicate PassesAt(rules: seq<Rule>, pkg: Package, p: Path) {
    p in pkg.fs ==>
      && !Protected(rules, p)
      && forall i {:trigger rules[i]} :: 0 <= i < |rules| && rules[i].MaxFileSize? && pkg.fs[p].kind == File ==>
        pkg.fs[p].size <= rules[i].bytes
  }

  /** None of the package's rows at the paths `ps` is at a protected path or a file above a size limit. */
  ghost predicate PassRules(rules: seq<Rule>, pkg: Package, ps: set<Path>) {
    forall p {:trigger PassesAt(rules, pkg, p)} :: p in ps ==> PassesAt(rules, pkg, p)
  }

  /** With the paths `ps` merged into `fs0` the rules refuse the row at `p`, which comes next. */
  ghost predicate RefusedAt(rules: seq<Rule>, fs0: Files, pkg: Package, ps: set<Path>, fs: Files, p: Path) {
    p in pkg.fs && p != [] && p !in ps && Merged(fs0, fs, pkg, ps) && RowRefused(rules, fs, pkg, p)
  }

  ghost predicate SomeRowRefused(rules: seq<Rule>, fs0: Files, pkg: Package) {
    exists ps, fs, p {:trigger RefusedAt(rules, fs0, pkg, ps, fs, p)} :: RefusedAt(rules, fs0, pkg, ps, fs, p)
  }

  method InjectNext(c: Connection, pkg: Package, ids: map<nat, nat>, p: Path, ghost was: Before, ghost ps: set<Path>)
    returns (ok: bool)
    requires Reached(c, was, pkg, ps) && p in pkg.fs && Mapped(pkg, c.dicts, ids) && 0 !in ids
    modifies c`fs, c`chunks, c`blobs, c`dirty, c`logical
    ensures ok ==> Reached(c, was, pkg, ps + {p})
    ensures c.rules == [] && Complete(pkg, ids) ==> ok
    ensures !ok && Complete(pkg, ids) ==> RowRefused(old(c.rules), old(c.fs), pkg, p)
  {
    ghost var m, b := c.fs, c.chunks;
    ok := InjectPath(c, pkg, ids, p);
    if ok {
      MergedMore(was.fs, was.chunks, m, b, c.chunks, pkg, ps, p);
      PassMore(c.rules, m, pkg, ps, p);
    }
  }

  lemma PassMore(rules: seq<Rule>, fs: Files, pkg: Package, ps: set<Path>, p: Path)
    requires PassRules(rules, pkg, ps) && !RowRefused(rules, fs, pkg, p)
    ensures PassRules(rules, pkg, ps + {p})
  {
    forall q {:trigger PassesAt(rules, pkg, q)} | q in ps + {p} ensures PassesAt(rules, pkg, q) {
      if q != p { assert q in ps; }
    }
  }

  lemma ReachedNone(c: Connection, pkg: Package)
    requires Counted(c)
    ensures Reached(c, Before(c.fs, c.chunks, c.blobs, c.dirty, c.logical), pkg, {})
  {
    forall q ensures MergedAt(c.fs, c.fs, pkg, {}, q) {}
    forall s ensures InjectedAt(c.chunks, c.chunks, pkg, {}, s) {}
  }

  /** The package's paths one by one, the root left out. */
  method InjectPaths(c: Connection, pkg: Package, ids: map<nat, nat>, ghost was: Before) returns (ok: bool)
    requires Counted(c) && Mapped(pkg, c.dicts, ids) && 0 !in ids
    requires was == Before(c.fs, c.chunks, c.blobs, c.dirty, c.logical)
    modifies c`fs, c`chunks, c`blobs, c`dirty, c`logical
    ensures ok ==> Reached(c, was, pkg, pkg.fs.Keys - {[]})
    ensures c.rules == [] && Complete(pkg, ids) ==> ok
    ensures !ok && Complete(pkg, ids) ==> SomeRowRefused(old(c.rules), was.fs, pkg)
  {
    var all := pkg.fs.Keys - {[]};
    var todo, done: set<Path> := all, {};
    ReachedNone(c, pkg);
    while todo != {}
      invariant done + todo == all && done !! todo && Reached(c, was, pkg, done)
      decreases |todo|
    {
      var p :| p in todo;
      ghost var fs := c.fs;
      ok := InjectNext(c, pkg, ids, p, was, done);
      if !ok {
        assert RowRefused(c.rules, fs, pkg, p) ==> RefusedAt(c.rules, was.fs, pkg, done, fs, p);
        return;
      }
      todo, done := todo - {p}, done + {p};
    }
    assert done == all;
    ok := true;
  }

  /** Every live and every snapshot entry is canonical. */
  ghost predicate AllHeld(fs: Files, chunks: Chunks, snaps: Snapshots) {
    && (forall p {:trigger HeldAt(fs, chunks, Live, p)} :: HeldAt(fs, chunks, Live, p))
    && (forall id, p {:trigger HeldAt(snaps[id], chunks, Snapshot(id), p)} ::
      id in snaps ==> HeldAt(snaps[id], chunks, Snapshot(id), p))
  }

  /** A package a merge accepts: no dictionary or block missing, blocks that decode, canonical entries. */
  ghost predicate WellFormed(pkg: Package) {
    && PackageOk(pkg)
    && (forall s {:trigger HasBlob(pkg.chunks, pkg.blobs, s)} :: HasBlob(pkg.chunks, pkg.blobs, s))
    && DictsIn(pkg, pkg.dicts.Keys)
    && (forall p {:trigger HeldAt(pkg.fs, pkg.chunks, Live, p)} :: HeldAt(pkg.fs, pkg.chunks, Live, p))
  }

  lemma InjectedList(a: Chunks, b: Chunks, pkg: Package, ps: set<Path>, o: Owner, q: Path)
    requires Injected(a, b, pkg, ps)
    ensures List(b, o, q) == if o == Live && q in ps then List(pkg.chunks, Live, q) else List(a, o, q)
  {
    if o == Live && q in ps {
      forall i: nat ensures SameSlot(b, Live, pkg.chunks, Live, q, i) {
        assert InjectedAt(a, b, pkg, ps, Slot(Live, q, i));
      }
      SameList(b, Live, pkg.chunks, Live, q);
    } else {
      forall i: nat ensures SameSlot(b, o, a, o, q, i) { assert InjectedAt(a, b, pkg, ps, Slot(o, q, i)); }
      SameList(b, o, a, o, q);
    }
  }

  lemma MergedHeld(fs: Files, a: Chunks, m: Files, b: Chunks, snaps: Snapshots, pkg: Package)
    requires Merged(fs, m, pkg, pkg.fs.Keys - {[]}) && Injected(a, b, pkg, pkg.fs.Keys - {[]})
    requires WellFormed(pkg) && AllHeld(fs, a, snaps)
    ensures AllHeld(m, b, snaps)
  {
    var ps := pkg.fs.Keys - {[]};
    forall p ensures HeldAt(m, b, Live, p) {
      assert MergedAt(fs, m, pkg, ps, p) && HeldAt(fs, a, Live, p) && HeldAt(pkg.fs, pkg.chunks, Live, p);
      InjectedList(a, b, pkg, ps, Live, p);
    }
    forall id, p | id in snaps ensures HeldAt(snaps[id], b, Snapshot(id), p) {
      assert HeldAt(snaps[id], a, Snapshot(id), p);
      InjectedList(a, b, pkg, ps, Snapshot(id), p);
    }
  }

  lemma FinalHeld(m: Files, fs: Files, chunks: Chunks, snaps: Snapshots, done: set<Path>)
    requires AllHeld(m, chunks, snaps) && Final(m, fs, chunks, done)
    ensures AllHeld(fs, chunks, snaps)
  {
    forall p ensures HeldAt(fs, chunks, Live, p) {
      assert HeldAt(m, chunks, Live, p) && FinalAt(m, fs, chunks, done, p);
      if p in m {
        var e := Entry(m[p], List(chunks, Live, p));
        if p in done { Worlds.FinalizedExact(e); }
        assert p in fs && Entry(fs[p], List(chunks, Live, p)) == if p in done then Worlds.Finalized(e) else e;
      }
    }
  }

  /** With the hashes of `done` computed the rules refuse the row of the pending file `p` with its hash. */
  ghost predicate HashRefusedAt(rules: seq<Rule>, m: Files, fs: Files, chunks: Chunks, dirty: set<Path>,
                                done: set<Path>, p: Path) {
    && done <= dirty && p in dirty && p !in done && Final(m, fs, chunks, done)
    && p in fs && Refused(rules, fs, Total(fs), p, FinalRow(fs, chunks, p))
  }

  ghost predicate SomeHashRefused(rules: seq<Rule>, m: Files, chunks: Chunks, dirty: set<Path>) {
    exists fs, done, p {:trigger HashRefusedAt(rules, m, fs, chunks, dirty, done, p)} ::
      HashRefusedAt(rules, m, fs, chunks, dirty, done, p)
  }

  /** Where all entries are canonical a pending file is stuck only if the rules refuse its row. */
  lemma StuckIsRefused(c: Connection, m: Files, dirty: set<Path>, done: set<Path>, p: Path)
    requires Sound(c) && AllHeld(m, c.chunks, c.snaps) && Stuck(c, p)
    requires done <= dirty && c.dirty == dirty - done && Final(m, c.fs, c.chunks, done)
    ensures SomeHashRefused(c.rules, m, c.chunks, dirty)
  {
    FinalHeld(m, c.fs, c.chunks, c.snaps, done);
    assert HeldAt(c.fs, c.chunks, Live, p);
    CanonicalFull(c.fs, c.chunks, p);
    FullLoads(c, p, c.fs[p].size);
    assert HashRefusedAt(c.rules, m, c.fs, c.chunks, dirty, done, p);
  }

  /** The last steps of a merge: the pending hashes and the deep checks. */
  method CheckMerged(c: Connection) returns (ok: bool)
    requires Counted(c)
    modifies c`fs, c`dirty, c`logical
    ensures ok ==>
      && Counted(c) && c.dirty == {} && Dense(c.fs, c.chunks) && Final(old(c.fs), c.fs, c.chunks, old(c.dirty))
      && c.logical == old(c.logical)
    ensures c.rules == [] && old(Sound(c)) && AllHeld(old(c.fs), c.chunks, c.snaps) ==> ok
    ensures !ok && old(Sound(c)) && AllHeld(old(c.fs), c.chunks, c.snaps) ==>
      SomeHashRefused(old(c.rules), old(c.fs), c.chunks, old(c.dirty))
  {
    ghost var m, dirty := c.fs, c.dirty;
    if AllHeld(m, c.chunks, c.snaps) {
      forall p {:trigger p in c.dirty} | p in c.dirty ensures Full(c.chunks, p, m[p].size, NumChunks(m[p].size)) {
        assert HeldAt(m, c.chunks, Live, p);
        CanonicalFull(m, c.chunks, p);
      }
    }
    var f;
    ghost var done;
    f, done := FinalizeDirty(c);
    FinalTotal(m, c.fs, c.chunks, done);
    if f.Err? {
      if Sound(c) && AllHeld(m, c.chunks, c.snaps) {
        ghost var p :| Stuck(c, p);
        StuckIsRefused(c, m, dirty, done, p);
      }
      return false;
    }
    if AllHeld(m, c.chunks, c.snaps) {
      FinalHeld(m, c.fs, c.chunks, c.snaps, done);
      CountedPasses(c);
    }
    ok := DeepChecks(c);
  }

  /** Once all paths are merged the rules refuse a pending hash. */
  ghost predicate RefusedAfter(rules: seq<Rule>, fs0: Files, a: Chunks, dirty: set<Path>, pkg: Package, m: Files,
                               b: Chunks) {
    && Merged(fs0, m, pkg, pkg.fs.Keys - {[]}) && Injected(a, b, pkg, pkg.fs.Keys - {[]})
    && SomeHashRefused(rules, m, b, dirty - (pkg.fs.Keys - {[]}))
  }

  /** Why the merge of a well-formed package fails: the rules refuse one of its rows when it comes, or the row of a
      pending file. */
  ghost predicate MergeRefused(rules: seq<Rule>, fs0: Files, a: Chunks, dirty: set<Path>, pkg: Package) {
    || SomeRowRefused(rules, fs0, pkg)
    || exists m, b {:trigger RefusedAfter(rules, fs0, a, dirty, pkg, m, b)} ::
      RefusedAfter(rules, fs0, a, dirty, pkg, m, b)
  }

  /** The work of a merge inside its transaction: dictionaries, paths, pending hashes, deep checks. */
  method MergeSteps(c: Connection, pkg: Package) returns (ok: bool, ghost m: Files)
    requires Counted(c)
    modifies c`fs, c`chunks, c`blobs, c`dicts, c`dirty, c`logical
    ensures ok ==> QuotaKept(c) && (PackageOk(pkg) && old(Sound(c)) ==> Sound(c))
    ensures ok ==> PassRules(old(c.rules), pkg, pkg.fs.Keys - {[]})
    ensures ok ==>
      && Counted(c) && Appended(old(c.dicts), c.dicts) && c.dirty == {} && Dense(c.fs, c.chunks)
      && Merged(old(c.fs), m, pkg, pkg.fs.Keys - {[]}) && Injected(old(c.chunks), c.chunks, pkg, pkg.fs.Keys - {[]})
      && Final(m, c.fs, c.chunks, old(c.dirty) - (pkg.fs.Keys - {[]}))
    ensures c.rules == [] && old(Sound(c)) && WellFormed(pkg) && AllHeld(old(c.fs), old(c.chunks), c.snaps) ==> ok
    ensures !ok && old(Sound(c)) && WellFormed(pkg) && AllHeld(old(c.fs), old(c.chunks), c.snaps) ==>
      MergeRefused(old(c.rules), old(c.fs), old(c.chunks), old(c.dirty), pkg)
  {
    m := c.fs;
    ghost var dicts, was := c.dicts, Before(c.fs, c.chunks, c.blobs, c.dirty, c.logical);
    var ids := MapDicts(c, pkg);
    if ids.None? { return false, m; }
    if BlobsDecode(dicts, c.blobs) { AppendedDecodes(dicts, c.dicts, c.blobs); }
    ok := InjectPaths(c, pkg, ids.value, was);
    if !ok { return; }
    m := c.fs;
    if WellFormed(pkg) && AllHeld(was.fs, was.chunks, c.snaps) {
      MergedHeld(was.fs, was.chunks, m, c.chunks, c.snaps, pkg);
    }
    ghost var b, dirty := c.chunks, c.dirty;
    ok := CheckMerged(c);
    if !ok && SomeHashRefused(c.rules, m, b, dirty) {
      assert RefusedAfter(c.rules, was.fs, was.chunks, was.dirty, pkg, m, b);
    }
  }

  /** Merge a package into the database. On success the tree is the old one overridden by every path of the
      package but the root, with the pending hashes computed; on any failure nothing has changed. The counts
      stay exact whatever the package holds; its blocks decode here if they did in the package. */
  method Merge(c: Connection, pkg: Package) returns (ok: bool, ghost m: Files)
    requires Counted(c)
    modifies c`fs, c`chunks, c`blobs, c`dicts, c`dirty, c`logical
    ensures Counted(c)
    ensures (PackageOk(pkg) && old(Sound(c)) ==> Sound(c)) && QuotaKept(c)
    ensures pkg.pending != {} ==> !ok
    ensures ok ==> PassRules(old(c.rules), pkg, pkg.fs.Keys - {[]})
    ensures !ok ==> c.fs == old(c.fs) && c.chunks == old(c.chunks) && c.blobs == old(c.blobs)
    ensures !ok ==> c.dicts == old(c.dicts) && c.dirty == old(c.dirty) && c.logical == old(c.logical)
    ensures
      c.rules == [] && pkg.pending == {} && WellFormed(pkg) && old(Sound(c)) &&
      AllHeld(old(c.fs), old(c.chunks), c.snaps) ==>
        ok
    ensures
      !ok && pkg.pending == {} && WellFormed(pkg) && old(Sound(c)) && AllHeld(old(c.fs), old(c.chunks), c.snaps) ==>
        MergeRefused(old(c.rules), old(c.fs), old(c.chunks), old(c.dirty), pkg)
    ensures ok ==>
      && Appended(old(c.dicts), c.dicts) && c.dirty == {} && Dense(c.fs, c.chunks)
      && Merged(old(c.fs), m, pkg, pkg.fs.Keys - {[]}) && Injected(old(c.chunks), c.chunks, pkg, pkg.fs.Keys - {[]})
      && Final(m, c.fs, c.chunks, old(c.dirty) - (pkg.fs.Keys - {[]}))
  {
    m := c.fs;
    if pkg.pending != {} { return false, m; }
    var savedFs, savedChunks, savedBlobs := c.fs, c.chunks, c.blobs;
    var savedDicts, savedDirty, savedLogical := c.dicts, c.dirty, c.logical;
    ok, m := MergeSteps(c, pkg);
    if !ok {
      c.dicts, c.dirty := savedDicts, savedDirty;
      PutBack(c, savedFs, savedChunks, savedBlobs, savedLogical);
    }
  }

  // ------------------------------------------------------------------ what a merge means

  /** The entries of a package that a merge takes. */
  ghost function PackageTree(pkg: Package): Tree {
    TreeOf(pkg.fs - {[]}, pkg.chunks, Live)
  }

  /** The merged tree, before the pending hashes are computed: the package's entries over the target's. */
  lemma MergedTree(fs: Files, a: Chunks, m: Files, b: Chunks, pkg: Package)
    requires Merged(fs, m, pkg, pkg.fs.Keys - {[]}) && Injected(a, b, pkg, pkg.fs.Keys - {[]})
    ensures TreeOf(m, b, Live) == TreeOf(fs, a, Live) + PackageTree(pkg)
  {
    var ps := pkg.fs.Keys - {[]};
    var s, t := TreeOf(m, b, Live), TreeOf(fs, a, Live) + PackageTree(pkg);
    forall q ensures At(s, q) == At(t, q) {
      assert MergedAt(fs, m, pkg, ps, q);
      InjectedList(a, b, pkg, ps, Live, q);
    }
    SameTree(s, t);
  }

  /** Before the pending hashes are computed, a merge is the merge step of the abstract machine. */
  lemma MergeRefines(fs: Files, a: Chunks, dirty: set<Path>, m: Files, b: Chunks, snaps: Snapshots, undos: Undos,
                     pkg: Package)
    requires Merged(fs, m, pkg, pkg.fs.Keys - {[]}) && Injected(a, b, pkg, pkg.fs.Keys - {[]})
    requires Worlds.Enabled(ViewOf(fs, a, dirty, snaps, undos), Worlds.Merge(PackageTree(pkg)))
    ensures ViewOf(m, b, dirty - (pkg.fs.Keys - {[]}), snaps, undos) ==
      Worlds.Step(ViewOf(fs, a, dirty, snaps, undos), Worlds.Merge(PackageTree(pkg)))
  {
    var ps := pkg.fs.Keys - {[]};
    assert PackageTree(pkg).Keys == ps;
    forall s ensures KeptSlot(a, b, Live, s) { assert InjectedAt(a, b, pkg, ps, s); }
    LiveChange(fs, a, dirty, m, b, dirty - ps, snaps, undos);
    MergedTree(fs, a, m, b, pkg);
  }

  /** Every injected file reads back the package's bytes, every other file its own. */
  lemma MergeReadsBack(fs: Files, a: Chunks, m: Files, fs': Files, b: Chunks, pkg: Package, done: set<Path>, p: Path,
                       s: Bytes)
    requires Merged(fs, m, pkg, pkg.fs.Keys - {[]}) && Injected(a, b, pkg, pkg.fs.Keys - {[]}) && Final(m, fs', b, done)
    requires if p in pkg.fs && p != [] then FileHolds(pkg.fs, pkg.chunks, p, s) else FileHolds(fs, a, p, s)
    ensures FileHolds(fs', b, p, s)
  {
    var ps := pkg.fs.Keys - {[]};
    assert MergedAt(fs, m, pkg, ps, p) && FinalAt(m, fs', b, done, p);
    forall i: nat ensures HoldsAt(b, p, s, i) {
      assert InjectedAt(a, b, pkg, ps, Slot(Live, p, i));
      if p in ps { assert HoldsAt(pkg.chunks, p, s, i); } else { assert HoldsAt(a, p, s, i); }
    }
  }
}
