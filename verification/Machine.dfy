/** A store in use: every operation as one object's method, with the steps it took recorded as a ghost
    history, so that what is proved of every run holds of every sequence of calls. */
module Machines {
  import opened Tables
  import opened Chunking
  import opened Trees
  import opened Policy
  import opened Connections
  import opened Worlds
  import opened Views
  import opened Rows
  import opened Read
  import opened Store
  import opened Ranges
  import opened Hashes
  import opened Snap = Snapshots
  import opened UndoRefines
  import Fuse
  import Inject
  import Verify
  import UndoRecords

  /** In an exact state a live file holds its content. */
  lemma ExactFileHolds(fs: Files, chunks: Chunks, dirty: set<Path>, snaps: Snapshots, undos: Undos, p: Path)
    requires WorldExact(ViewOf(fs, chunks, dirty, snaps, undos)) && p in fs && fs[p].kind == File
    ensures fs[p].hash.Some? && FileHolds(fs, chunks, p, Content(Entry(fs[p], List(chunks, Live, p))))
  {
    assert LiveExact(ViewOf(fs, chunks, dirty, snaps, undos), p);
    CanonicalHolds(fs, chunks, p);
  }

  lemma ExactFullOn(fs: Files, chunks: Chunks, dirty: set<Path>, snaps: Snapshots, undos: Undos)
    requires WorldExact(ViewOf(fs, chunks, dirty, snaps, undos))
    ensures FullOn(fs, chunks, dirty)
  {
    forall p {:trigger p in dirty} | p in dirty ensures p in fs && Full(chunks, p, fs[p].size, NumChunks(fs[p].size)) {
      assert LiveExact(ViewOf(fs, chunks, dirty, snaps, undos), p);
      CanonicalFull(fs, chunks, p);
    }
  }

  /** The steps the program runs with the rules bypassed. */
  predicate Bypasses(op: Op) {
    op.SnapRestore? || op.UndoApply?
  }

  /** From a total within the quotas, no step of the run bypassed the rules. */
  ghost predicate Ruled(bounded: bool, ops: seq<Op>) {
    bounded && forall i {:trigger ops[i]} :: 0 <= i < |ops| ==> !Bypasses(ops[i])
  }

  lemma RuledMore(bounded: bool, ops: seq<Op>, op: Op)
    ensures Ruled(bounded, ops + [op]) <==> Ruled(bounded, ops) && !Bypasses(op)
  {
    var more := ops + [op];
    assert more[|ops|] == op && forall i {:trigger ops[i]} :: 0 <= i < |ops| ==> more[i] == ops[i];
  }

  /** A row the rules accept keeps the total within the quotas. */
  lemma PutInQuota(rules: seq<Rule>, fs: Files, logical: int, p: Path, row: Row)
    requires logical == Total(fs) && InQuota(rules, logical) && !Refused(rules, fs, logical, p, row)
    ensures InQuota(rules, Total(fs[p := row]))
  {
    TotalWith(fs, p, row);
    AcceptedInQuota(rules, fs, logical, p, row);
  }

  /** In an exact state every live and every snapshot entry is canonical. */
  lemma ExactHeld(fs: Files, chunks: Chunks, dirty: set<Path>, snaps: Snapshots, undos: Undos)
    requires WorldExact(ViewOf(fs, chunks, dirty, snaps, undos))
    ensures Inject.AllHeld(fs, chunks, snaps)
  {
    var w := ViewOf(fs, chunks, dirty, snaps, undos);
    forall p ensures Verify.HeldAt(fs, chunks, Live, p) { assert LiveExact(w, p); }
    forall id, p | id in snaps ensures Verify.HeldAt(snaps[id], chunks, Snapshot(id), p) {
      assert TreeExactAt(w.snaps[id], p);
    }
  }

  /** When a ranged operation succeeds: on a regular file whose new size the rules accept, or with nothing to
      do. */
  predicate CanDefer(fs: Files, logical: int, rules: seq<Rule>, p: Path, nothing: bool, size: nat, mtime: int) {
    && p in fs && fs[p].kind == File
    && (nothing || !Refused(rules, fs, logical, p, fs[p].(size := size, mtime := mtime)))
  }

  /** A whole write of `row` with content `data` as a step of the abstract machine. */
  twostate predicate PutStep(c: Connection, p: Path, row: Row, data: Bytes)
    reads c
  {
    var op := Op.Put(p, Entry(row, ListOf(data)));
    Enabled(old(View(c)), op) && View(c) == Step(old(View(c)), op) && QuotaKept(c)
  }

  method PutWhole(c: Connection, p: Path, mode: nat, mtime: int, data: Bytes) returns (ok: bool)
    requires Sound(c)
    modifies c`fs, c`chunks, c`blobs, c`logical
    ensures Sound(c)
    ensures ok <==> !Refused(c.rules, old(c.fs), old(c.logical), p, FileRow(mode, mtime, KeptNs(old(c.fs), p), data))
    ensures if ok then PutStep(c, p, FileRow(mode, mtime, KeptNs(old(c.fs), p), data), data) else SameTables(c)
  {
    ghost var fs, chunks, logical, row := c.fs, c.chunks, c.logical, FileRow(mode, mtime, KeptNs(c.fs, p), data);
    ok := PutFile(c, p, mode, mtime, data);
    if ok {
      PutRefines(fs, chunks, c.chunks, c.dirty, c.snaps, c.undos, p, row, data);
      if InQuota(c.rules, logical) { PutInQuota(c.rules, fs, logical, p, row); }
    }
  }

  method PutStreamed(c: Connection, p: Path, mode: nat, mtime: int, ns: int, src: Source) returns (ok: bool)
    requires Sound(c)
    modifies c`fs, c`chunks, c`blobs, c`logical
    ensures Sound(c)
    ensures ok <==>
        && !src.Fails()
        && !Refused(c.rules, old(c.fs), old(c.logical), p, FileRow(mode, mtime, ns, src.data))
    ensures if ok then PutStep(c, p, FileRow(mode, mtime, ns, src.data), src.data) else SameTables(c)
  {
    ghost var fs, chunks, logical, row := c.fs, c.chunks, c.logical, FileRow(mode, mtime, ns, src.data);
    ok := PutStream(c, p, mode, mtime, ns, src);
    if ok {
      PutRefines(fs, chunks, c.chunks, c.dirty, c.snaps, c.undos, p, row, src.data);
      if InQuota(c.rules, logical) { PutInQuota(c.rules, fs, logical, p, row); }
    }
  }

  method PutPlain(c: Connection, p: Path, kind: Kind, mode: nat, mtime: int, link: Option<string>) returns (ok: bool)
    requires Sound(c) && kind != File
    modifies c`fs, c`chunks, c`blobs, c`logical
    ensures Sound(c)
    ensures ok <==> !Protected(c.rules, p)
    ensures if ok then PutStep(c, p, NodeRow(kind, mode, mtime, KeptNs(old(c.fs), p), link), []) else SameTables(c)
  {
    ghost var fs, chunks, logical, row := c.fs, c.chunks, c.logical, NodeRow(kind, mode, mtime, KeptNs(c.fs, p), link);
    ok := PutNode(c, p, kind, mode, mtime, link);
    if ok {
      PutRefines(fs, chunks, c.chunks, c.dirty, c.snaps, c.undos, p, row, []);
      if InQuota(c.rules, logical) { PutInQuota(c.rules, fs, logical, p, row); }
    }
  }

  /** A ranged write as a step of the abstract machine. */
  method DeferWrite(c: Connection, cache: ChunkCache?, p: Path, off: nat, data: Bytes, mtime: int, ghost s: Bytes)
    returns (r: Result<()>)
    requires Sound(c) && (cache != null ==> cache.Valid())
    requires p in c.fs && c.fs[p].kind == File ==> c.fs[p].hash.Some? && FileHolds(c.fs, c.chunks, p, s)
    modifies c`fs, c`chunks, c`blobs, c`dirty, c`logical, cache
    ensures Sound(c) && (cache != null ==> cache.Valid()) && QuotaKept(c)
    ensures r.Ok? <==> CanDefer(old(c.fs), old(c.logical), c.rules, p, data == [], Max(|s|, off + |data|), mtime)
    ensures r.Err? || data == [] ==> View(c) == old(View(c))
    ensures r.Ok? && data != [] ==>
      var op := Op.Defer(p, Splice(s, off, data), mtime);
      Enabled(old(View(c)), op) && View(c) == Step(old(View(c)), op)
  {
    ghost var fs, chunks, dirty, logical := c.fs, c.chunks, c.dirty, c.logical;
    r := WriteRangeDeferred(c, cache, p, off, data, mtime);
    if r.Ok? && data != [] {
      SpliceAt(s, off, data);
      if InQuota(c.rules, logical) { PutInQuota(c.rules, fs, logical, p, c.fs[p]); }
      DeferRefines(fs, chunks, c.chunks, dirty, c.snaps, c.undos, p, Splice(s, off, data), mtime);
    }
  }

  /** A truncate as a step of the abstract machine. */
  method DeferCut(c: Connection, cache: ChunkCache?, p: Path, n: nat, mtime: int,
                  ghost s: Bytes) returns (r: Result<()>)
    requires Sound(c) && (cache != null ==> cache.Valid())
    requires p in c.fs && c.fs[p].kind == File ==> c.fs[p].hash.Some? && FileHolds(c.fs, c.chunks, p, s)
    modifies c`fs, c`chunks, c`blobs, c`dirty, c`logical, cache
    ensures Sound(c) && (cache != null ==> cache.Valid()) && QuotaKept(c)
    ensures r.Ok? <==> CanDefer(old(c.fs), old(c.logical), c.rules, p, n == |s|, n, mtime)
    ensures r.Err? || n == |s| ==> View(c) == old(View(c))
    ensures r.Ok? && n != |s| ==>
      var op := Op.Defer(p, Resize(s, n), mtime);
      Enabled(old(View(c)), op) && View(c) == Step(old(View(c)), op)
  {
    ghost var fs, chunks, dirty, logical := c.fs, c.chunks, c.dirty, c.logical;
    r := TruncateRangeDeferred(c, cache, p, n, mtime);
    if r.Ok? && n != |s| && InQuota(c.rules, logical) { PutInQuota(c.rules, fs, logical, p, c.fs[p]); }
    if r.Ok? && n != |s| { DeferRefines(fs, chunks, c.chunks, dirty, c.snaps, c.undos, p, Resize(s, n), mtime); }
  }

  /** A rename of a mount as steps of the abstract machine. */
  method RenameSteps(c: Connection, m: Fuse.Mount, parent: nat, name: Name, np: nat,
                     newName: Name) returns (r: Fuse.Reply<()>, ghost mv: map<Path, Path>)
    requires m.Valid() && m.conn == c
    modifies m`nodes, c`fs, c`chunks, c`blobs, c`dirty, c`logical
    ensures m.Valid() && QuotaKept(c)
    ensures
      if r.Done? && !Fuse.SameEntry(old(m.nodes), parent, name, np, newName) then
        Fuse.Renames(old(View(c)), View(c), Fuse.ReplacedRow(old(m.nodes), np, newName), mv)
      else View(c) == old(View(c))
    ensures r.Fail? ==>
      Fuse.MayFail(old(c.rules), old(m.nodes), old(c.fs), parent, name, np, newName)
  {
    ghost var mid, w;
    r, mid, w := m.Rename(parent, name, np, newName);
    mv := w.mv;
  }

  /** The rules refuse the row of the pending file `p` with the hash of its content. */
  ghost predicate HashRefused(c: Connection, p: Path)
    reads c
  {
    && p in c.dirty && p in c.fs
    && Refused(c.rules, c.fs, c.logical, p,
      c.fs[p].(hash := Some(Sha256(Content(Entry(c.fs[p], List(c.chunks, Live, p)))))))
  }

  ghost predicate SomeHashRefused(c: Connection)
    reads c
  {
    exists p {:trigger HashRefused(c, p)} :: HashRefused(c, p)
  }

  /** In an exact state a pending file is stuck only if the rules refuse its row. */
  lemma WhyStuck(c: Connection, p: Path)
    requires Sound(c) && WorldExact(View(c)) && Stuck(c, p)
    ensures HashRefused(c, p)
  {
    ExactFullOn(c.fs, c.chunks, c.dirty, c.snaps, c.undos);
    FullLoads(c, p, c.fs[p].size);
  }

  /** Computing the pending hashes, as a step of the abstract machine. */
  method FinalizeSteps(c: Connection) returns (r: Result<()>, ghost done: set<Path>)
    requires Sound(c) && WorldExact(View(c))
    modifies c`fs, c`dirty, c`logical
    ensures Sound(c) && c.logical == old(c.logical) && done <= old(c.dirty)
    ensures Enabled(old(View(c)), Op.Finalize(done)) && View(c) == Step(old(View(c)), Op.Finalize(done))
    ensures r.Ok? ==> c.dirty == {} && done == old(c.dirty)
    ensures c.rules == [] ==> r.Ok?
    ensures r.Err? ==> SomeHashRefused(c)
  {
    ghost var fs, dirty, v := c.fs, c.dirty, View(c);
    ExactFullOn(fs, c.chunks, dirty, c.snaps, c.undos);
    r, done := FinalizeDirty(c);
    FinalizeRefines(fs, c.fs, c.chunks, dirty, c.snaps, c.undos, done);
    FinalTotal(fs, c.fs, c.chunks, done);
    if r.Err? {
      StepExact(v, Op.Finalize(done));
      ghost var p :| Stuck(c, p);
      WhyStuck(c, p);
    }
  }

  /** A snapshot as steps of the abstract machine; `w` is the state between them. */
  method SnapshotSteps(c: Connection) returns (r: Result<nat>, ghost done: set<Path>, ghost w: World)
    requires Sound(c) && WorldExact(View(c))
    modifies c`fs, c`dirty, c`logical, c`snaps, c`chunks, c`blobs
    ensures Sound(c) && c.logical == old(c.logical)
    ensures Enabled(old(View(c)), Op.Finalize(done)) && w == Step(old(View(c)), Op.Finalize(done))
    ensures r.Ok? ==> Enabled(w, Op.SnapCreate(r.value)) && View(c) == Step(w, Op.SnapCreate(r.value))
    ensures r.Err? ==> View(c) == Step(old(View(c)), Op.Finalize(done)) && SomeHashRefused(c)
    ensures c.rules == [] ==> r.Ok?
  {
    ghost var fs, chunks, dirty, snaps, v := c.fs, c.chunks, c.dirty, c.snaps, View(c);
    ExactFullOn(fs, chunks, dirty, snaps, c.undos);
    r, done := SnapshotCreate(c);
    w := ViewOf(c.fs, chunks, c.dirty, snaps, c.undos);
    FinalizeRefines(fs, c.fs, chunks, dirty, snaps, c.undos, done);
    FinalTotal(fs, c.fs, chunks, done);
    if r.Ok? {
      CreateRefines(c.fs, chunks, c.chunks, snaps, c.undos, r.value);
    } else {
      StepExact(v, Op.Finalize(done));
      ghost var p :| Stuck(c, p);
      WhyStuck(c, p);
    }
  }

  class Vm {
    const conn: Connection
    ghost const start: World
    ghost var ops: seq<Op>

    /** Whether the total was within the quotas at the start. */
    ghost const bounded: bool

    /** The database is where the recorded steps lead from an exact start. Its total is within the quotas if it
        was so at the start and no step since was one that bypasses the rules. */
    ghost predicate Valid()
      reads this, conn
    {
      && Sound(conn) && WorldExact(start) && Legal(start, ops) && Run(start, ops) == View(conn)
      && (Ruled(bounded, ops) ==> InQuota(conn.rules, conn.logical))
    }

    constructor (c: Connection)
      requires Sound(c) && WorldExact(View(c))
      ensures Valid() && conn == c && ops == [] && bounded == InQuota(c.rules, c.logical)
    {
      conn, start, ops := c, ViewOf(c.fs, c.chunks, c.dirty, c.snaps, c.undos), [];
      bounded := InQuota(c.rules, c.logical);
    }

    /** Whatever was called: every file not marked pending has the exact hash of its content, and so have all
        snapshots and undo records. */
    lemma AlwaysExact()
      requires Valid()
      ensures WorldExact(View(conn))
    {
      HashesExactOverRuns(start, ops);
    }

    /** The sizes of all files together stay within every quota, whatever calls that do not bypass the rules were
        made. */
    lemma AlwaysInQuota(quota: nat)
      requires Valid() && bounded && DiskQuota(quota) in conn.rules
      requires forall i {:trigger ops[i]} :: 0 <= i < |ops| ==> !ops[i].SnapRestore? && !ops[i].UndoApply?
      ensures Total(conn.fs) <= quota
    {
      var i :| 0 <= i < |conn.rules| && conn.rules[i] == DiskQuota(quota);
    }

    ghost method Take(op: Op, v: World)
      requires Sound(conn) && WorldExact(start) && Legal(start, ops) && Run(start, ops) == v
      requires Ruled(bounded, ops) && !Bypasses(op) ==> InQuota(conn.rules, conn.logical)
      requires Enabled(v, op) && Step(v, op) == View(conn)
      modifies this`ops
      ensures Valid() && ops == old(ops) + [op]
    {
      RunMore(start, ops, op);
      ops := ops + [op];
      RuledMore(bounded, old(ops), op);
    }

    // ---------------------------------------------------------------- whole paths

    /** Write a regular file. */
    method Put(p: Path, mode: nat, mtime: int, data: Bytes) returns (ok: bool)
      requires Valid()
      modifies this, conn`fs, conn`chunks, conn`blobs, conn`logical
      ensures Valid()
      ensures ok <==>
        !Refused(conn.rules, old(conn.fs), old(conn.logical), p, FileRow(mode, mtime, KeptNs(old(conn.fs), p), data))
      ensures !ok ==> ops == old(ops)
      ensures ok ==>
        ops == old(ops) + [Op.Put(p, Entry(FileRow(mode, mtime, KeptNs(old(conn.fs), p), data), ListOf(data)))]
    {
      ghost var v, row := View(conn), FileRow(mode, mtime, KeptNs(conn.fs, p), data);
      ok := PutWhole(conn, p, mode, mtime, data);
      if ok { Take(Op.Put(p, Entry(row, ListOf(data))), v); }
    }

    /** Write a regular file from a reader. */
    method PutFrom(p: Path, mode: nat, mtime: int, ns: int, src: Source) returns (ok: bool)
      requires Valid()
      modifies this, conn`fs, conn`chunks, conn`blobs, conn`logical
      ensures Valid()
      ensures ok <==>
        && !src.Fails()
        && !Refused(conn.rules, old(conn.fs), old(conn.logical), p, FileRow(mode, mtime, ns, src.data))
      ensures !ok ==> ops == old(ops)
      ensures ok ==> ops == old(ops) + [Op.Put(p, Entry(FileRow(mode, mtime, ns, src.data), ListOf(src.data)))]
    {
      ghost var v, row := View(conn), FileRow(mode, mtime, ns, src.data);
      ok := PutStreamed(conn, p, mode, mtime, ns, src);
      if ok { Take(Op.Put(p, Entry(row, ListOf(src.data))), v); }
    }

    /** Write a directory or link. */
    method PutOther(p: Path, kind: Kind, mode: nat, mtime: int, link: Option<string>) returns (ok: bool)
      requires Valid() && kind != File
      modifies this, conn`fs, conn`chunks, conn`blobs, conn`logical
      ensures Valid() && ok == !Protected(conn.rules, p)
      ensures !ok ==> ops == old(ops)
      ensures ok ==>
        ops == old(ops) + [Op.Put(p, Entry(NodeRow(kind, mode, mtime, KeptNs(old(conn.fs), p), link), ListOf([])))]
    {
      ghost var v, row := View(conn), NodeRow(kind, mode, mtime, KeptNs(conn.fs, p), link);
      ok := PutPlain(conn, p, kind, mode, mtime, link);
      if ok { Take(Op.Put(p, Entry(row, ListOf([]))), v); }
    }

    /** Delete a row. */
    method Delete(p: Path) returns (ok: bool)
      requires Valid()
      modifies this, conn`fs, conn`chunks, conn`blobs, conn`dirty, conn`logical
      ensures Valid() && ok == !Protected(conn.rules, p)
      ensures ops == if ok then old(ops) + [Op.Remove(p)] else old(ops)
    {
      ok := !Protected(conn.rules, p);
      if !ok { return; }
      ghost var fs, chunks, dirty, v := conn.fs, conn.chunks, conn.dirty, View(conn);
      DropPath(conn, p);
      Fuse.DropRefines(fs, chunks, conn.chunks, dirty, conn.snaps, conn.undos, p);
      Take(Op.Remove(p), v);
    }

    // ---------------------------------------------------------------- ranges and hashes

    /** The live content of a path. */
    ghost function Bytes(p: Path): Tables.Bytes
      reads this, conn
    {
      if p in conn.fs then Content(Entry(conn.fs[p], List(conn.chunks, Live, p))) else []
    }

    /** What exactness gives a ranged operation: a file has a hash, and holds its content. */
    lemma HoldsBytes(p: Path)
      requires Valid() && p in conn.fs && conn.fs[p].kind == File
      ensures conn.fs[p].hash.Some? && FileHolds(conn.fs, conn.chunks, p, Bytes(p))
    {
      AlwaysExact();
      ExactFileHolds(conn.fs, conn.chunks, conn.dirty, conn.snaps, conn.undos, p);
    }

    /** Write a byte range; the hash is left for later. `s` is the content before. */
    method WriteAt(cache: ChunkCache?, p: Path, off: nat, data: Tables.Bytes, mtime: int)
      returns (r: Result<()>, ghost s: Tables.Bytes)
      requires Valid() && (cache != null ==> cache.Valid())
      modifies this, conn`fs, conn`chunks, conn`blobs, conn`dirty, conn`logical, cache
      ensures Valid() && (cache != null ==> cache.Valid()) && s == old(Bytes(p))
      ensures ops == if r.Ok? && data != [] then old(ops) + [Op.Defer(p, Splice(s, off, data), mtime)] else old(ops)
      ensures r.Ok? <==>
        CanDefer(old(conn.fs), old(conn.logical), conn.rules, p, data == [], Max(|s|, off + |data|), mtime)
    {
      s := Bytes(p);
      ghost var v := View(conn);
      if p in conn.fs && conn.fs[p].kind == File { HoldsBytes(p); }
      r := DeferWrite(conn, cache, p, off, data, mtime, s);
      if r.Ok? && data != [] { Take(Op.Defer(p, Splice(s, off, data), mtime), v); }
    }

    /** Cut or zero-extend a file; the hash is left for later. `s` is the content before. */
    method Truncate(cache: ChunkCache?, p: Path, n: nat, mtime: int) returns (r: Result<()>, ghost s: Tables.Bytes)
      requires Valid() && (cache != null ==> cache.Valid())
      modifies this, conn`fs, conn`chunks, conn`blobs, conn`dirty, conn`logical, cache
      ensures Valid() && (cache != null ==> cache.Valid()) && s == old(Bytes(p))
      ensures ops == if r.Ok? && n != |s| then old(ops) + [Op.Defer(p, Resize(s, n), mtime)] else old(ops)
      ensures r.Ok? <==> CanDefer(old(conn.fs), old(conn.logical), conn.rules, p, n == |s|, n, mtime)
    {
      s := Bytes(p);
      ghost var v := View(conn);
      if p in conn.fs && conn.fs[p].kind == File { HoldsBytes(p); }
      r := DeferCut(conn, cache, p, n, mtime, s);
      if r.Ok? && n != |s| { Take(Op.Defer(p, Resize(s, n), mtime), v); }
    }

    /** Compute the pending hashes. Afterwards, on success, none is pending. */
    method FinalizeAll() returns (r: Result<()>, ghost done: set<Path>)
      requires Valid()
      modifies this, conn`fs, conn`dirty, conn`logical
      ensures Valid() && ops == old(ops) + [Op.Finalize(done)] && done <= old(conn.dirty)
      ensures r.Ok? ==> conn.dirty == {} && done == old(conn.dirty)
      ensures conn.rules == [] ==> r.Ok?
      ensures r.Err? ==> SomeHashRefused(conn)
    {
      AlwaysExact();
      ghost var v := View(conn);
      r, done := FinalizeSteps(conn);
      Take(Op.Finalize(done), v);
    }

    // ---------------------------------------------------------------- snapshots

    /** Capture the live tree, the pending hashes computed first. */
    method TakeSnapshot() returns (r: Result<nat>, ghost done: set<Path>)
      requires Valid()
      modifies this, conn`fs, conn`dirty, conn`logical, conn`snaps, conn`chunks, conn`blobs
      ensures Valid() && (conn.rules == [] ==> r.Ok?)
      ensures r.Err? ==> SomeHashRefused(conn)
      ensures ops == if r.Ok?
        then old(ops) + [Op.Finalize(done)] + [Op.SnapCreate(r.value)] else old(ops) + [Op.Finalize(done)]
    {
      AlwaysExact();
      ghost var v, w := View(conn), View(conn);
      r, done, w := SnapshotSteps(conn);
      if r.Ok? {
        TakeTwo(Op.Finalize(done), Op.SnapCreate(r.value), v, w);
      } else {
        Take(Op.Finalize(done), v);
      }
    }

    ghost method TakeTwo(first: Op, second: Op, v: World, w: World)
      requires Sound(conn) && WorldExact(start) && Legal(start, ops) && Run(start, ops) == v
      requires Ruled(bounded, ops) && !Bypasses(first) && !Bypasses(second) ==> InQuota(conn.rules, conn.logical)
      requires Enabled(v, first) && Step(v, first) == w && Enabled(w, second) && Step(w, second) == View(conn)
      modifies this`ops
      ensures Valid() && ops == old(ops) + [first] + [second]
    {
      RunMore(start, ops, first);
      RunMore(start, ops + [first], second);
      RuledMore(bounded, ops, first);
      RuledMore(bounded, ops + [first], second);
      ops := ops + [first] + [second];
    }

    /** Replace the live tree by a snapshot's: the tree the snapshot had at any earlier point of the history
        since which it was not deleted, whatever was called in between. */
    method Restore(id: nat) returns (r: Result<()>)
      requires Valid()
      modifies this, conn`fs, conn`chunks, conn`blobs, conn`dirty, conn`logical
      ensures Valid() && (r.Ok? <==> id in conn.snaps)
      ensures ops == if r.Ok? then old(ops) + [Op.SnapRestore(id)] else old(ops)
      ensures forall i: nat {:trigger HeldSince(start, old(ops), i, id)} :: HeldSince(start, old(ops), i, id) ==>
        r.Ok? && conn.dirty == {} && TreeOf(conn.fs, conn.chunks, Live) == Run(start, old(ops)[..i]).snaps[id]
    {
      ghost var fs, chunks, dirty, v, past := conn.fs, conn.chunks, conn.dirty, View(conn), ops;
      forall i: nat {:trigger HeldSince(start, past, i, id)} | HeldSince(start, past, i, id)
        ensures id in v.snaps && v.snaps[id] == Run(start, past[..i]).snaps[id]
      {
        HeldTree(start, past, i, id);
      }
      ghost var less;
      r, less := SnapshotRestore(conn, id);
      if r.Ok? {
        RestoreRefines(fs, chunks, less, conn.chunks, dirty, conn.snaps, conn.undos, id);
        Take(Op.SnapRestore(id), v);
      }
    }

    /** Keep the newest snapshots. */
    method Retain(keep: nat) returns (removed: set<nat>)
      requires Valid()
      modifies this, conn`snaps, conn`chunks, conn`blobs
      ensures Valid() && ops == old(ops) + [Op.SnapDelete(removed)]
      ensures |conn.snaps| == if |old(conn.snaps)| > keep then keep else |old(conn.snaps)|
      ensures forall i, j {:trigger i in removed, j in conn.snaps} :: i in removed && j in conn.snaps ==> i < j
    {
      ghost var chunks, snaps, v := conn.chunks, conn.snaps, View(conn);
      removed := SnapshotRetain(conn, keep);
      RetainRefines(conn.fs, chunks, conn.chunks, conn.dirty, snaps, conn.snaps, conn.undos, removed);
      Take(Op.SnapDelete(removed), v);
    }

    method DropSnapshot(id: nat)
      requires Valid() && id in conn.snaps
      modifies this, conn`snaps, conn`chunks, conn`blobs
      ensures Valid() && ops == old(ops) + [Op.SnapDelete({id})]
    {
      ghost var chunks, snaps, v := conn.chunks, conn.snaps, View(conn);
      SnapshotDelete(conn, id);
      SnapDeleteRefines(conn.fs, chunks, conn.chunks, conn.dirty, snaps, conn.undos, id);
      Take(Op.SnapDelete({id}), v);
    }

    // ---------------------------------------------------------------- undo records

    method Begin() returns (u: nat)
      requires Valid()
      modifies this, conn`undos
      ensures Valid() && u !in old(conn.undos) && ops == old(ops) + [Op.UndoBegin(u)]
    {
      ghost var undos, v := conn.undos, View(conn);
      u := UndoRecords.UndoBegin(conn);
      BeginRefines(conn.fs, conn.chunks, conn.dirty, conn.snaps, undos, u);
      Take(Op.UndoBegin(u), v);
    }

    /** Capture a path that has no pending hash; the second capture of a path is no step. */
    method Capture(u: nat, p: Path)
      requires Valid() && u in conn.undos && p !in conn.dirty
      modifies this, conn`undos, conn`chunks, conn`blobs
      ensures Valid()
      ensures ops == if p in old(conn.undos)[u] then old(ops) else old(ops) + [Op.UndoCapture(u, p)]
    {
      ghost var chunks, undos, v := conn.chunks, conn.undos, View(conn);
      UndoRecords.UndoCapture(conn, u, p);
      if p !in undos[u] {
        CaptureRefines(conn.fs, chunks, conn.chunks, conn.dirty, conn.snaps, undos, u, p);
        Take(Op.UndoCapture(u, p), v);
      }
    }

    method Undo(u: nat)
      requires Valid() && u in conn.undos
      modifies this, conn`fs, conn`chunks, conn`blobs, conn`dirty, conn`logical
      ensures Valid() && ops == old(ops) + [Op.UndoApply(u)]
    {
      ghost var fs, chunks, dirty, v := conn.fs, conn.chunks, conn.dirty, View(conn);
      ghost var less := UndoRecords.UndoApply(conn, u);
      ApplyRefines(fs, chunks, less, conn.chunks, dirty, conn.snaps, conn.undos, u);
      Take(Op.UndoApply(u), v);
    }

    method Forget(u: nat)
      requires Valid() && u in conn.undos
      modifies this, conn`undos, conn`chunks, conn`blobs
      ensures Valid() && ops == old(ops) + [Op.UndoDelete(u)]
    {
      ghost var chunks, undos, v := conn.chunks, conn.undos, View(conn);
      UndoRecords.UndoDelete(conn, u);
      DeleteRefines(conn.fs, chunks, conn.chunks, conn.dirty, conn.snaps, undos, u);
      Take(Op.UndoDelete(u), v);
    }

    // ---------------------------------------------------------------- renames and merges

    /** Rename an entry of a mount of this database. */
    method RenameEntry(m: Fuse.Mount, parent: nat, name: Name, np: nat,
                       newName: Name) returns (r: Fuse.Reply<()>, ghost mv: map<Path, Path>)
      requires Valid() && m.Valid() && m.conn == conn
      modifies this, m`nodes, conn`fs, conn`chunks, conn`blobs, conn`dirty, conn`logical
      ensures Valid() && m.Valid()
      ensures r.Fail? ==>
        && ops == old(ops)
        && Fuse.MayFail(old(conn.rules), old(m.nodes), old(conn.fs), parent, name, np, newName)
      ensures r.Done? ==>
        var replaced := Fuse.ReplacedRow(old(m.nodes), np, newName);
        ops == if Fuse.SameEntry(old(m.nodes), parent, name, np, newName) then old(ops)
          else if replaced.Some? then old(ops) + [Op.Remove(replaced.value)] + [Op.Rename(mv)]
          else old(ops) + [Op.Rename(mv)]
    {
      ghost var v, nodes := View(conn), m.nodes;
      r, mv := RenameSteps(conn, m, parent, name, np, newName);
      if r.Done? && !Fuse.SameEntry(nodes, parent, name, np, newName) {
        ghost var replaced := Fuse.ReplacedRow(nodes, np, newName);
        assert Fuse.Renames(v, View(conn), replaced, mv);
        if replaced.Some? {
          TakeTwo(Op.Remove(replaced.value), Op.Rename(mv), v, Fuse.WithoutRow(v, replaced));
        } else {
          Take(Op.Rename(mv), v);
        }
      }
    }

    /** Merge a package whose entries are exact: `MergeExactIff` shows that no other keeps the hashes exact. */
    method MergeIn(pkg: Inject.Package) returns (ok: bool, ghost done: set<Path>)
      requires Valid() && Inject.PackageOk(pkg)
      requires forall p {:trigger TreeExactAt(Inject.PackageTree(pkg), p)} :: TreeExactAt(Inject.PackageTree(pkg), p)
      modifies this, conn`fs, conn`chunks, conn`blobs, conn`dicts, conn`dirty, conn`logical
      ensures Valid()
      ensures ops == if ok then old(ops) + [Op.Merge(Inject.PackageTree(pkg))] + [Op.Finalize(done)] else old(ops)
      ensures ok ==> conn.dirty == {}
      ensures !ok && pkg.pending == {} && Inject.WellFormed(pkg) ==>
        Inject.MergeRefused(old(conn.rules), old(conn.fs), old(conn.chunks), old(conn.dirty), pkg)
    {
      AlwaysExact();
      ExactHeld(conn.fs, conn.chunks, conn.dirty, conn.snaps, conn.undos);
      ghost var fs, chunks, dirty, v, over := conn.fs, conn.chunks, conn.dirty, View(conn), Inject.PackageTree(pkg);
      done := dirty - (pkg.fs.Keys - {[]});
      ghost var mid;
      ok, mid := Inject.Merge(conn, pkg);
      if ok {
        Inject.MergeRefines(fs, chunks, dirty, mid, conn.chunks, conn.snaps, conn.undos, pkg);
        ghost var w := ViewOf(mid, conn.chunks, done, conn.snaps, conn.undos);
        FinalizeRefines(mid, conn.fs, conn.chunks, done, conn.snaps, conn.undos, done);
        TakeTwo(Op.Merge(over), Op.Finalize(done), v, w);
      }
    }
  }
}
