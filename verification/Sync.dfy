/** Mirroring host entries into the rows, with every row captured in an undo record before it is written or
    deleted. The host tree is an input: what the walk, `lstat`, `readlink` and reads of it report. */
module Sync {
  import opened Tables
  import opened Chunking
  import opened Trees
  import opened Policy
  import opened Connections
  import opened Views
  import opened Rows
  import opened Read
  import opened Store
  import opened Ranges
  import opened Hashes
  import opened UndoRecords
  import opened Discipline

  // ------------------------------------------------------------------ host entries

  /** One entry of the host tree. `target` and `content` are `None` when they cannot be read; the three
      nanosecond stamps are those taken with the metadata, before and after the content is read. */
  datatype HostEntry =
    | Unreadable
    | Special
    | HostDir(mode: nat)
    | HostLink(mode: nat, target: Option<string>)
    | HostFile(mode: nat, mtime: int, size: nat, ns: int, before: int, after: int, content: Option<Source>)

  type Host = map<Path, HostEntry>

  datatype Outcome = Created | Updated | Unchanged | Failed

  /** Unknown stamps (0) cannot tell two versions apart. */
  predicate NsMatches(stored: int, host: int) {
    stored == 0 || host == 0 || stored == host
  }

  predicate CanRead(e: HostEntry) {
    match e
    case HostLink(_, target) => target.Some?
    case HostFile(_, _, _, _, _, _, content) => content.Some? && !content.value.Fails()
    case _ => !e.Unreadable?
  }

  /** The row needs no write: the entry is of a kind the VM does not store, or the row shows it already. A
      full sync also compares the content with the stored hash. */
  predicate Current(e: HostEntry, prev: Option<Row>, full: bool) {
    match e
    case Unreadable => false
    case Special => true
    case HostDir(mode) => prev.Some? && prev.value.kind == Dir && prev.value.mode == mode
    case HostLink(mode, target) =>
      prev.Some? && prev.value.kind == Symlink && target.Some? && prev.value.link == target && prev.value.mode == mode
    case HostFile(mode, mtime, size, ns, _, _, content) =>
      && prev.Some? && prev.value.kind == File
      && prev.value.size == size && prev.value.mtime == mtime && prev.value.mode == mode
      && NsMatches(prev.value.mtimeNs, ns)
      && (full ==> CanRead(e) && prev.value.hash == Some(Sha256(content.value.data)))
  }

  /** What `Current` decides, field by field: the row already has the entry's kind, permissions and target, or for
      a file its size, times and permissions and, in a full sync, the hash of its content. */
  ghost predicate UpToDate(e: HostEntry, prev: Option<Row>, full: bool) {
    || e.Special?
    || (prev.Some? && e.HostDir? && prev.value.kind == Dir && prev.value.mode == e.mode)
    || (prev.Some? && e.HostLink? && prev.value.kind == Symlink && prev.value.mode == e.mode
        && e.target.Some? && prev.value.link == e.target)
    || (prev.Some? && e.HostFile? && prev.value.kind == File && prev.value.size == e.size
        && prev.value.mtime == e.mtime && prev.value.mode == e.mode
        && (prev.value.mtimeNs == 0 || e.ns == 0 || prev.value.mtimeNs == e.ns)
        && (full ==> CanRead(e) && prev.value.hash == Some(Sha256(e.content.value.data))))
  }

  /** The row is that of the entry as of `now`, field by field. A nanosecond stamp is recorded only when no write
      was seen during the read. */
  ghost predicate RowOf(e: HostEntry, now: int, row: Row) {
    CanRead(e) &&
    match e
    case HostDir(mode) => row.kind == Dir && row.mode == mode && row.mtime == now
    case HostLink(mode, target) => row.kind == Symlink && row.mode == mode && row.link == target && row.mtime == now
    case HostFile(mode, mtime, _, _, before, after, content) =>
      && row.kind == File && row.mode == mode && row.mtime == mtime
      && row.mtimeNs == (if before == after then before else 0)
      && row.size == |content.value.data| && row.link.None? && row.hash == Some(Sha256(content.value.data))
    case _ => false
  }

  /** The row mirrors the entry: its fields, and for a file its bytes. */
  ghost predicate Mirrors(e: HostEntry, now: int, fs: Files, chunks: Chunks, p: Path) {
    && p in fs && RowOf(e, now, fs[p])
    && (e.HostFile? ==> FileHolds(fs, chunks, p, e.content.value.data))
  }

  /** The write of the entry's row is refused by the rules in force. */
  ghost predicate RefusedWrite(e: HostEntry, rules: seq<Rule>, fs: Files, logical: int, p: Path) {
    match e
    case HostFile(mode, mtime, _, _, before, _, content) =>
      content.Some? && Refused(rules, fs, logical, p, FileRow(mode, mtime, before, content.value.data))
    case _ => Protected(rules, p)
  }

  // ------------------------------------------------------------------ one row

  /** The statements of a step touch the rows of `p` only. */
  twostate predicate WritesOnly(c: Connection, p: Path)
    reads c
  {
    OnlyRows(old(c.fs), c.fs, {p}) && OnlySlots(old(c.chunks), c.chunks, {p})
  }

  lemma FilledHolds(fs: Files, a: Chunks, b: Chunks, p: Path, data: Bytes)
    requires Filled(a, b, p, data, NumChunks(|data|)) && p in fs && fs[p].kind == File && fs[p].size == |data|
    ensures FileHolds(fs, b, p, data)
  {
    forall i: nat ensures HoldsAt(b, p, data, i) {
      assert FilledAt(a, b, p, data, NumChunks(|data|), Slot(Live, p, i));
    }
  }

  /** A row that was accepted may be written again with another time stamp. */
  lemma RefusedAgain(rules: seq<Rule>, fs: Files, logical: int, p: Path, row: Row, ns: int)
    requires !Refused(rules, fs, logical, p, row)
    ensures !Refused(rules, fs[p := row], logical - WeightAt(fs, p) + Weight(row), p, row.(mtimeNs := ns))
  {
  }

  /** Take the nanosecond stamp out of the row just written. */
  method ClearStamp(c: Connection, p: Path, row: Row, ghost fs: Files, ghost logical: int)
    requires Shaped(c) && !Refused(c.rules, fs, logical, p, row)
    requires c.fs == fs[p := row] && logical == Total(fs)
    modifies c`fs, c`logical
    ensures Shaped(c) && c.fs == fs[p := row.(mtimeNs := 0)]
  {
    ghost var was := c.fs;
    TotalWith(fs, p, row);
    RefusedAgain(c.rules, fs, logical, p, row, 0);
    var ok := UpsertRow(c, p, row.(mtimeNs := 0));
    MoreRooted(was, c.chunks, c.snaps, c.undos, p, row.(mtimeNs := 0));
  }

  /** Store a host file, with its nanosecond stamp only when it did not change while it was read. */
  method WriteFileChecked(c: Connection, p: Path, e: HostEntry) returns (ok: bool)
    requires Sound(c) && e.HostFile? && e.content.Some?
    modifies c`fs, c`chunks, c`blobs, c`logical
    ensures Sound(c) && WritesOnly(c, p)
    ensures ok <==> CanRead(e) && !RefusedWrite(e, c.rules, old(c.fs), old(c.logical), p)
    ensures ok ==> forall now {:trigger Mirrors(e, now, c.fs, c.chunks, p)} :: Mirrors(e, now, c.fs, c.chunks, p)
    ensures !ok ==> c.fs == old(c.fs) && c.chunks == old(c.chunks)
  {
    var data := e.content.value.data;
    ghost var fs, chunks, logical := c.fs, c.chunks, c.logical;
    ok := PutStream(c, p, e.mode, e.mtime, e.before, e.content.value);
    if ok {
      if e.before != e.after || e.before == 0 {
        ClearStamp(c, p, FileRow(e.mode, e.mtime, e.before, data), fs, logical);
      }
      FilledOnly(chunks, c.chunks, p, data, NumChunks(|data|));
      WithRowOnly(fs, p, c.fs[p]);
      FilledHolds(c.fs, chunks, c.chunks, p, data);
    } else {
      NothingOnly(c.fs, c.chunks, p);
    }
  }

  lemma NothingOnly(fs: Files, chunks: Chunks, p: Path)
    ensures OnlyRows(fs, fs, {p}) && OnlySlots(chunks, chunks, {p})
  {
    forall q ensures SameRowAt(fs, fs, {p}, q) {}
    forall s ensures SameSlotAt(chunks, chunks, {p}, s) {}
  }

  /** Write a directory or link row over whatever is at `p`. */
  method WriteNode(c: Connection, p: Path, kind: Kind, mode: nat, now: int, link: Option<string>) returns (ok: bool)
    requires Sound(c) && kind != File
    modifies c`fs, c`chunks, c`blobs, c`logical
    ensures Sound(c) && WritesOnly(c, p)
    ensures ok <==> !Protected(c.rules, p)
    ensures ok ==>
      p in c.fs && c.fs[p] == NodeRow(kind, mode, now, KeptNs(old(c.fs), p), link) && ExactRowAt(c.fs, c.chunks, p)
    ensures !ok ==> c.fs == old(c.fs) && c.chunks == old(c.chunks)
  {
    ghost var fs, chunks := c.fs, c.chunks;
    ok := PutNode(c, p, kind, mode, now, link);
    if ok {
      FilledOnly(chunks, c.chunks, p, [], 0);
      FilledList(chunks, c.chunks, p, [], p);
      WithRowOnly(fs, p, c.fs[p]);
    } else {
      NothingOnly(c.fs, c.chunks, p);
    }
  }

  /** `UPDATE vm_fs SET mode, link_target, mtime` of a directory or link row. */
  method UpdateNode(c: Connection, p: Path, mode: nat, now: int, link: Option<string>) returns (ok: bool)
    requires Sound(c) && p in c.fs && c.fs[p].kind != File
    modifies c`fs, c`logical
    ensures Sound(c) && WritesOnly(c, p)
    ensures ok <==> !Protected(c.rules, p)
    ensures ok ==> p in c.fs && c.fs[p] == old(c.fs)[p].(mode := mode, link := link, mtime := now)
    ensures old(ExactRowAt(c.fs, c.chunks, p)) ==> ExactRowAt(c.fs, c.chunks, p)
    ensures !ok ==> c.fs == old(c.fs)
  {
    ghost var fs := c.fs;
    ok := UpsertRow(c, p, c.fs[p].(mode := mode, link := link, mtime := now));
    NothingOnly(c.fs, c.chunks, p);
    if ok {
      OthersSelf(c.chunks, p);
      OthersRooted(fs, c.chunks, c.chunks, c.snaps, c.undos, p, c.fs[p]);
      WithRowOnly(fs, p, c.fs[p]);
    }
  }

  /** A file that mirrors its host entry is exact. */
  lemma MirroredExact(e: HostEntry, now: int, fs: Files, chunks: Chunks, p: Path)
    requires Mirrors(e, now, fs, chunks, p) && e.HostFile?
    ensures ExactRowAt(fs, chunks, p)
  {
    var s := e.content.value.data;
    FileHoldsList(fs, chunks, p, s);
    Holds(Entry(fs[p], List(chunks, Live, p)), s);
  }

  /** Bring the row of `p` in line with a readable entry that it does not show yet. */
  method WriteEntry(c: Connection, p: Path, e: HostEntry, now: int) returns (ok: bool)
    requires Sound(c) && !e.Special? && !e.Unreadable?
    modifies c`fs, c`chunks, c`blobs, c`logical
    ensures Sound(c) && WritesOnly(c, p)
    ensures ok <==> CanRead(e) && !RefusedWrite(e, c.rules, old(c.fs), old(c.logical), p)
    ensures ok ==> Mirrors(e, now, c.fs, c.chunks, p)
    ensures old(ExactRowAt(c.fs, c.chunks, p)) ==> ExactRowAt(c.fs, c.chunks, p)
    ensures !ok ==> c.fs == old(c.fs) && c.chunks == old(c.chunks)
  {
    NothingOnly(c.fs, c.chunks, p);
    match e
    case HostDir(mode) =>
      if p in c.fs && c.fs[p].kind == Dir {
        ok := UpdateNode(c, p, mode, now, c.fs[p].link);
      } else {
        ok := WriteNode(c, p, Dir, mode, now, None);
      }
    case HostLink(mode, target) =>
      if target.None? { return false; }
      if p in c.fs && c.fs[p].kind == Symlink {
        ok := UpdateNode(c, p, mode, now, target);
      } else {
        ok := WriteNode(c, p, Symlink, mode, now, target);
      }
    case HostFile(_, _, _, _, _, _, content) =>
      if content.None? { return false; }
      ok := WriteFileChecked(c, p, e);
      if ok { MirroredExact(e, now, c.fs, c.chunks, p); }
  }

  predicate Opens(e: HostEntry) {
    match e
    case HostLink(_, target) => target.Some?
    case HostFile(_, _, _, _, _, _, content) => content.Some?
    case _ => !e.Unreadable?
  }

  function KindOf(e: HostEntry): Kind {
    match e
    case HostLink(_, _) => Symlink
    case HostFile(_, _, _, _, _, _, _) => File
    case _ => Dir
  }

  /** A link whose target or a file whose content cannot be read at all. */
  ghost predicate CannotOpen(e: HostEntry) {
    (e.HostLink? && e.target.None?) || (e.HostFile? && e.content.None?)
  }

  /** The sync fails on the entry before anything is captured: it cannot be opened, or its content cannot be
      read for the comparison a full sync makes. A row of another kind is captured first. */
  predicate FailsEarly(e: HostEntry, prev: Option<Row>, full: bool) {
    && (prev.None? || prev.value.kind == KindOf(e))
    && (!Opens(e) || (full && Current(e, prev, false) && !CanRead(e)))
  }

  /** Capture `p` in record `u` if it is not there yet. */
  method CaptureLogged(c: Connection, u: nat, p: Path, ghost fs0: Files, ghost a: Chunks)
    requires Sound(c) && u in c.undos && Logged(fs0, a, c.fs, c.chunks, c.undos[u], u)
    modifies c`undos, c`chunks, c`blobs
    ensures Sound(c) && OtherRecords(old(c.undos), c.undos, u) && p in c.undos[u]
    ensures forall q {:trigger q in c.undos[u]} :: q in old(c.undos)[u] ==> q in c.undos[u]
    ensures Logged(fs0, a, c.fs, c.chunks, c.undos[u], u)
    ensures Kept(old(c.chunks), c.chunks, Undo(u))
  {
    ghost var chunks, undos := c.chunks, c.undos;
    UndoCapture(c, u, p);
    forall id ensures OtherRecordAt(undos, c.undos, u, id) {}
    if p !in undos[u] {
      LogCapture(fs0, a, c.fs, chunks, c.chunks, undos[u], u, p);
      CopyKept(chunks, c.chunks, Live, Undo(u), {p});
    } else {
      forall s ensures KeptSlot(chunks, c.chunks, Undo(u), s) {}
    }
  }

  ghost predicate LiveSlotAt(a: Chunks, b: Chunks, ps: set<Path>, s: Slot) {
    s.owner == Live && s.path !in ps ==> (s in b <==> s in a) && (s in b ==> b[s] == a[s])
  }

  /** The live chunk rows differ at most at the paths `ps`. */
  ghost predicate OnlyLive(a: Chunks, b: Chunks, ps: set<Path>) {
    forall s {:trigger LiveSlotAt(a, b, ps, s)} :: LiveSlotAt(a, b, ps, s)
  }

  lemma CaptureThenWrite(a: Chunks, m: Chunks, b: Chunks, u: nat, p: Path)
    requires Kept(a, m, Undo(u)) && OnlySlots(m, b, {p})
    ensures OnlyLive(a, b, {p}) && (b == m ==> OnlyLive(a, b, {}))
  {
    forall s ensures LiveSlotAt(a, b, {p}, s) && (b == m ==> LiveSlotAt(a, b, {}, s)) {
      assert KeptSlot(a, m, Undo(u), s) && SameSlotAt(m, b, {p}, s);
    }
  }

  // ------------------------------------------------------------------ exact entries

  ghost predicate ExactRowAt(fs: Files, chunks: Chunks, p: Path) {
    p in fs ==> Exact(Entry(fs[p], List(chunks, Live, p)))
  }

  /** Every live entry is canonical and a file's hash is that of its content. */
  ghost predicate AllExact(fs: Files, chunks: Chunks) {
    forall p {:trigger ExactRowAt(fs, chunks, p)} :: ExactRowAt(fs, chunks, p)
  }

  /** Exact entries stay exact. */
  twostate predicate ExactKept(c: Connection)
    reads c`fs, c`chunks
  {
    old(AllExact(c.fs, c.chunks)) ==> AllExact(c.fs, c.chunks)
  }

  lemma OthersExact(fs: Files, a: Chunks, fs': Files, b: Chunks, ps: set<Path>, p: Path)
    requires ExactRowAt(fs, a, p) && p !in ps && OnlyRows(fs, fs', ps) && OnlyLive(a, b, ps)
    ensures ExactRowAt(fs', b, p)
  {
    assert SameRowAt(fs, fs', ps, p);
    forall i: nat ensures SameSlot(a, Live, b, Live, p, i) { assert LiveSlotAt(a, b, ps, Slot(Live, p, i)); }
    SameList(a, Live, b, Live, p);
  }

  /** A change of the rows of `ps` that leaves those exact leaves all exact. */
  lemma ChangedExact(fs: Files, a: Chunks, fs': Files, b: Chunks, ps: set<Path>)
    requires AllExact(fs, a) && OnlyRows(fs, fs', ps) && OnlyLive(a, b, ps)
    requires forall p {:trigger p in ps} :: p in ps ==> ExactRowAt(fs', b, p)
    ensures AllExact(fs', b)
  {
    forall p ensures ExactRowAt(fs', b, p) {
      if p !in ps { assert ExactRowAt(fs, a, p); OthersExact(fs, a, fs', b, ps, p); }
    }
  }

  lemma CapturedExact(fs: Files, a: Chunks, m: Chunks, u: nat)
    requires AllExact(fs, a) && Kept(a, m, Undo(u))
    ensures AllExact(fs, m)
  {
    forall q ensures SameRowAt(fs, fs, {}, q) {}
    forall s ensures LiveSlotAt(a, m, {}, s) { assert KeptSlot(a, m, Undo(u), s); }
    ChangedExact(fs, a, fs, m, {});
  }

  lemma WroteExact(fs: Files, m: Chunks, fs': Files, b: Chunks, p: Path)
    requires AllExact(fs, m) && OnlyRows(fs, fs', {p}) && OnlySlots(m, b, {p})
    requires ExactRowAt(fs, m, p) ==> ExactRowAt(fs', b, p)
    ensures AllExact(fs', b)
  {
    assert ExactRowAt(fs, m, p);
    forall s ensures LiveSlotAt(m, b, {p}, s) { assert SameSlotAt(m, b, {p}, s); }
    ChangedExact(fs, m, fs', b, {p});
  }

  /** Capture the row of `p` and write the entry over it. */
  method WriteLogged(c: Connection, u: nat, p: Path, e: HostEntry, now: int, ghost fs0: Files,
                     ghost a: Chunks) returns (ok: bool)
    requires Sound(c) && !e.Special? && !e.Unreadable?
    requires u in c.undos && Logged(fs0, a, c.fs, c.chunks, c.undos[u], u)
    modifies c`fs, c`chunks, c`blobs, c`logical, c`undos
    ensures Sound(c) && OtherRecords(old(c.undos), c.undos, u)
    ensures Logged(fs0, a, c.fs, c.chunks, c.undos[u], u)
    ensures OnlyRows(old(c.fs), c.fs, {p}) && OnlyLive(old(c.chunks), c.chunks, {p}) && ExactKept(c)
    ensures ok <==> CanRead(e) && !RefusedWrite(e, c.rules, old(c.fs), old(c.logical), p)
    ensures ok ==> Mirrors(e, now, c.fs, c.chunks, p)
    ensures !ok ==> c.fs == old(c.fs) && OnlyLive(old(c.chunks), c.chunks, {})
  {
    CaptureLogged(c, u, p, fs0, a);
    ghost var fs, chunks := c.fs, c.chunks;
    ok := WriteEntry(c, p, e, now);
    LogWrite(fs0, a, fs, chunks, c.fs, c.chunks, c.undos[u], u, {p});
    CaptureThenWrite(old(c.chunks), chunks, c.chunks, u, p);
    if AllExact(fs, old(c.chunks)) {
      CapturedExact(fs, old(c.chunks), chunks, u);
      WroteExact(fs, chunks, c.fs, c.chunks, p);
    }
  }

  /** Bring the row of `p` in line with the host entry, capturing it first. */
  method SyncOne(c: Connection, u: nat, p: Path, e: HostEntry, full: bool, now: int, ghost fs0: Files,
                 ghost a: Chunks) returns (r: Outcome)
    requires Sound(c) && !e.Unreadable?
    requires u in c.undos && Logged(fs0, a, c.fs, c.chunks, c.undos[u], u)
    modifies c`fs, c`chunks, c`blobs, c`logical, c`undos
    ensures Sound(c) && OtherRecords(old(c.undos), c.undos, u)
    ensures Logged(fs0, a, c.fs, c.chunks, c.undos[u], u)
    ensures OnlyRows(old(c.fs), c.fs, {p}) && OnlyLive(old(c.chunks), c.chunks, {p}) && ExactKept(c)
    ensures r == Unchanged <==> UpToDate(e, Captured(old(c.fs), p), full)
    ensures r == Failed <==>
      && !UpToDate(e, Captured(old(c.fs), p), full)
      && (!CanRead(e) || RefusedWrite(e, c.rules, old(c.fs), old(c.logical), p))
    ensures r == Unchanged || r == Failed ==> c.fs == old(c.fs) && OnlyLive(old(c.chunks), c.chunks, {})
    ensures r == Unchanged ==> c.undos == old(c.undos)
    ensures CannotOpen(e) && (p in old(c.fs) ==> old(c.fs)[p].kind == if e.HostLink? then Symlink else File) ==>
      c.undos == old(c.undos)
    ensures r == Created || r == Updated ==>
      Mirrors(e, now, c.fs, c.chunks, p) && (r == Created <==> p !in old(c.fs)) && !Protected(c.rules, p)
  {
    var prev := Captured(c.fs, p);
    NothingOnly(c.fs, c.chunks, p);
    forall id ensures OtherRecordAt(c.undos, c.undos, u, id) {}
    forall s ensures LiveSlotAt(c.chunks, c.chunks, {}, s) && LiveSlotAt(c.chunks, c.chunks, {p}, s) {}
    if Current(e, prev, full) { return Unchanged; }
    if FailsEarly(e, prev, full) { return Failed; }
    var ok := WriteLogged(c, u, p, e, now, fs0, a);
    r := if !ok then Failed else if prev.None? then Created else Updated;
  }

  // ------------------------------------------------------------------ deletions

  /** Capture the rows `ps` one after the other. */
  method CaptureAll(c: Connection, u: nat, ps: set<Path>, ghost fs0: Files, ghost a: Chunks)
    requires Sound(c) && u in c.undos && Logged(fs0, a, c.fs, c.chunks, c.undos[u], u)
    modifies c`undos, c`chunks, c`blobs
    ensures Sound(c) && OtherRecords(old(c.undos), c.undos, u)
    ensures forall p {:trigger p in ps} :: p in ps ==> p in c.undos[u]
    ensures Logged(fs0, a, c.fs, c.chunks, c.undos[u], u)
    ensures Kept(old(c.chunks), c.chunks, Undo(u))
  {
    var todo := ps;
    forall id ensures OtherRecordAt(c.undos, c.undos, u, id) {}
    forall s ensures KeptSlot(c.chunks, c.chunks, Undo(u), s) {}
    while todo != {}
      invariant todo <= ps && Sound(c) && OtherRecords(old(c.undos), c.undos, u)
      invariant forall p {:trigger p in ps} :: p in ps && p !in todo ==> p in c.undos[u]
      invariant Logged(fs0, a, c.fs, c.chunks, c.undos[u], u)
      invariant Kept(old(c.chunks), c.chunks, Undo(u))
      decreases |todo|
    {
      var p :| p in todo;
      ghost var chunks, undos := c.chunks, c.undos;
      CaptureLogged(c, u, p, fs0, a);
      OtherRecordsMore(old(c.undos), undos, c.undos, u);
      KeptTrans(old(c.chunks), chunks, c.chunks, Undo(u));
      todo := todo - {p};
    }
  }

  lemma OtherRecordsMore(x: Undos, y: Undos, z: Undos, u: nat)
    requires OtherRecords(x, y, u) && OtherRecords(y, z, u)
    ensures OtherRecords(x, z, u)
  {
    forall id ensures OtherRecordAt(x, z, u, id) { assert OtherRecordAt(x, y, u, id) && OtherRecordAt(y, z, u, id); }
  }

  /** Capture the rows `ps` and delete them in one statement; the policy refuses the whole statement. */
  method DeleteLogged(c: Connection, u: nat, ps: set<Path>, ghost fs0: Files, ghost a: Chunks) returns (ok: bool)
    requires Sound(c) && u in c.undos && Logged(fs0, a, c.fs, c.chunks, c.undos[u], u)
    modifies c`fs, c`chunks, c`blobs, c`dirty, c`logical, c`undos
    ensures Sound(c) && OtherRecords(old(c.undos), c.undos, u)
    ensures Logged(fs0, a, c.fs, c.chunks, c.undos[u], u)
    ensures ok <==> forall p {:trigger p in ps} :: p in ps ==> !Protected(c.rules, p)
    ensures c.fs == (if ok then old(c.fs) - ps else old(c.fs)) && OnlyLive(old(c.chunks), c.chunks, ps)
    ensures ExactKept(c)
    ensures old(c.dirty) == {} ==> c.dirty == {}
  {
    CaptureAll(c, u, ps, fs0, a);
    ghost var fs, chunks := c.fs, c.chunks;
    forall s ensures LiveSlotAt(old(c.chunks), chunks, ps, s) { assert KeptSlot(old(c.chunks), chunks, Undo(u), s); }
    if AllExact(fs, old(c.chunks)) { CapturedExact(fs, old(c.chunks), chunks, u); }
    ok := forall p {:trigger p in ps} :: p in ps ==> !Protected(c.rules, p);
    if ok {
      DropPaths(c, ps);
      DroppedOnly(fs, chunks, c.chunks, ps);
      LogWrite(fs0, a, fs, chunks, c.fs, c.chunks, c.undos[u], u, ps);
      forall s ensures LiveSlotAt(old(c.chunks), c.chunks, ps, s) {
        assert LiveSlotAt(old(c.chunks), chunks, ps, s) && DroppedAt(chunks, c.chunks, Live, ps, s);
      }
      if AllExact(fs, old(c.chunks)) { ChangedExact(fs, old(c.chunks), c.fs, c.chunks, ps); }
    }
  }
}
