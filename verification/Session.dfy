/** A session: commands whose host changes are synced under an undo record, and rewinds. The class records,
    as a ghost history, which step of the abstract machine each call was. */
module Sessions {
  import opened Tables
  import opened Trees
  import Policy
  import opened Connections
  import opened Views
  import opened Read
  import opened Hashes
  import opened UndoRecords
  import opened UndoRefines
  import opened Discipline
  import opened Sync
  import opened SyncRuns
  import opened Rewinds
  import opened SessionSteps
  import Worlds

  ghost function LiveTree(c: Connection): Tree
    reads c
  {
    TreeOf(c.fs, c.chunks, Live)
  }

  ghost function LogOf(c: Connection): Log
    reads c
  {
    UndosOf(c.undos, c.chunks)
  }

  ghost function SnapTrees(c: Connection): map<nat, Tree>
    reads c
  {
    SnapsOf(c.snaps, c.chunks)
  }

  // ------------------------------------------------------------------ undo records as tree steps

  lemma AppliedTrees(fs: Files, a: Chunks, less: Chunks, b: Chunks, snaps: Snapshots, undos: Undos, u: nat)
    requires u in undos
    requires Dropped(a, less, Live, undos[u].Keys) && Copied(less, b, Undo(u), Live, Existed(undos[u]).Keys)
    ensures UndosOf(undos, b) == UndosOf(undos, a) && SnapsOf(snaps, b) == SnapsOf(snaps, a)
    ensures TreeOf(fs - undos[u].Keys + Existed(undos[u]), b, Live) ==
      Worlds.Apply(TreeOf(fs, a, Live), UndosOf(undos, a)[u])
  {
    DropKept(a, less, Live, undos[u].Keys);
    CopyKept(less, b, Undo(u), Live, Existed(undos[u]).Keys);
    KeptTrans(a, less, b, Live);
    KeptUndos(a, b, Live, undos);
    KeptSnaps(a, b, Live, snaps);
    AppliedTree(fs, a, less, b, undos[u], u);
  }

  /** `undo_apply` on trees. */
  method ApplyRecord(c: Connection, u: nat)
    requires Sound(c) && u in c.undos
    modifies c`fs, c`chunks, c`blobs, c`dirty, c`logical
    ensures Sound(c) && (old(c.dirty) == {} ==> c.dirty == {})
    ensures LogOf(c) == old(LogOf(c)) && u in LogOf(c) && SnapTrees(c) == old(SnapTrees(c))
    ensures LiveTree(c) == Worlds.Apply(old(LiveTree(c)), LogOf(c)[u])
  {
    ghost var fs, chunks := c.fs, c.chunks;
    ghost var less := UndoApply(c, u);
    AppliedTrees(fs, chunks, less, c.chunks, c.snaps, c.undos, u);
  }

  /** `undo_delete` on trees. */
  method DeleteRecord(c: Connection, u: nat)
    requires Sound(c) && u in c.undos
    modifies c`undos, c`chunks, c`blobs
    ensures Sound(c) && c.undos == old(c.undos) - {u}
    ensures LogOf(c) == old(LogOf(c)) - {u} && LiveTree(c) == old(LiveTree(c)) && SnapTrees(c) == old(SnapTrees(c))
  {
    ghost var chunks, undos := c.chunks, c.undos;
    UndoDelete(c, u);
    DropKept(chunks, c.chunks, Undo(u), undos[u].Keys);
    DeletedLog(chunks, c.chunks, undos, u);
    KeptTree(chunks, c.chunks, Undo(u), c.fs, Live);
    KeptSnaps(chunks, c.chunks, Undo(u), c.snaps);
  }

  ghost predicate DiffAt(d: Diff, rows: map<Path, Option<Row>>, fs: Files, p: Path) {
    && (p in d.created <==> p in rows && rows[p].None? && p in fs)
    && (p in d.modified <==> p in rows && rows[p].Some? && p in fs && Differs(rows[p].value, fs[p]))
    && (p in d.deleted <==> p in rows && rows[p].Some? && p !in fs)
  }

  lemma DiffIsRecordDiff(d: Diff, fs: Files, chunks: Chunks, undos: Undos, u: nat)
    requires u in undos && forall p {:trigger DiffAt(d, undos[u], fs, p)} :: DiffAt(d, undos[u], fs, p)
    ensures d == RecordDiff(UndosOf(undos, chunks)[u], TreeOf(fs, chunks, Live))
  {
    var e := RecordDiff(UndosOf(undos, chunks)[u], TreeOf(fs, chunks, Live));
    forall p
      ensures p in d.created <==> p in e.created
      ensures p in d.modified <==> p in e.modified
      ensures p in d.deleted <==> p in e.deleted
    {
      assert DiffAt(d, undos[u], fs, p);
    }
  }

  /** One row of the change list. */
  function DiffRow(d: Diff, p: Path, was: Option<Row>, now: Option<Row>): Diff {
    if was.None? then (if now.Some? then d.(created := d.created + {p}) else d)
    else if now.None? then d.(deleted := d.deleted + {p})
    else if Differs(was.value, now.value) then d.(modified := d.modified + {p}) else d
  }

  /** The change list of a step: its record against the live rows. */
  method UndoDiff(c: Connection, u: nat) returns (d: Diff)
    requires u in c.undos
    ensures u in LogOf(c) && d == RecordDiff(LogOf(c)[u], LiveTree(c))
  {
    var rows := c.undos[u];
    d := Diff({}, {}, {});
    var todo := rows.Keys;
    while todo != {}
      invariant todo <= rows.Keys
      invariant forall p {:trigger DiffAt(d, rows - todo, c.fs, p)} :: DiffAt(d, rows - todo, c.fs, p)
      decreases |todo|
    {
      var p :| p in todo;
      ghost var was, seen, more := d, rows - todo, rows - (todo - {p});
      d := DiffRow(d, p, rows[p], Captured(c.fs, p));
      forall q ensures DiffAt(d, more, c.fs, q) { assert DiffAt(was, seen, c.fs, q); }
      todo := todo - {p};
    }
    assert rows - {} == rows;
    DiffIsRecordDiff(d, c.fs, c.chunks, c.undos, u);
  }

  /** Undo a step and forget its record. */
  method UndoAndDrop(c: Connection, u: nat)
    requires Sound(c) && u in c.undos && c.dirty == {}
    modifies c`fs, c`undos, c`chunks, c`blobs, c`dirty, c`logical
    ensures Sound(c) && c.dirty == {} && c.undos.Keys == old(c.undos).Keys - {u}
    ensures LogOf(c) == old(LogOf(c)) - {u} && SnapTrees(c) == old(SnapTrees(c))
    ensures u in old(LogOf(c)) && LiveTree(c) == Worlds.Apply(old(LiveTree(c)), old(LogOf(c))[u])
  {
    ApplyRecord(c, u);
    ghost var tree := LiveTree(c);
    DeleteRecord(c, u);
    assert LiveTree(c) == tree;
  }

  // ------------------------------------------------------------------ one command's sync

  /** What a command left on the host: the entries, the links kept under their own path, and the paths the
      watcher reported (`None` when it lost track and the whole tree has to be compared). */
  datatype Changes = Changes(host: Host, alias: map<Path, Path>, paths: Option<seq<Path>>)

  /** What the command left on the host has reached the live rows: every reported path on a host that is a
      tree, or the whole tree. */
  ghost predicate HostShown(fs0: Files, fs: Files, chunks: Chunks, ch: Changes, now: int) {
    match ch.paths
    case Some(ps) => ch.alias == map[] && Closed(ch.host) ==> AllDone(ch.host, ch.alias, now, fs, chunks, ps, |ps|)
    case None => MirrorsTree(ch.host, ch.alias, now, fs0, fs, chunks, false)
  }

  /** The paths a sync of these changes looks at. */
  ghost function Among(ch: Changes): set<Path> {
    if ch.paths.Some? then Listed(ch.paths.value) else ch.host.Keys
  }

  /** A deletion the sync has to make is refused: a protected row is at or below a reported path that is missing on
      the host, or in a full sync, has no entry there. */
  ghost predicate CannotDelete(ch: Changes, rules: seq<Policy.Rule>, fs: Files) {
    match ch.paths
    case Some(ps) => DeletionRefused(ch.host, ch.alias, rules, fs, Listed(ps))
    case None =>
      exists q {:trigger KeptThoughGone(ch.host, ch.alias, rules, fs, q)} ::
        KeptThoughGone(ch.host, ch.alias, rules, fs, q)
  }

  /** Some path looked at is unreadable or refused when the sync reaches it. */
  ghost predicate CannotWrite(ch: Changes, now: int, rules: seq<Policy.Rule>, fs: Files) {
    Culprit(ch.host, now, rules, fs, Among(ch))
  }

  /** Every entry of the host can be read, and the rules leave room for all its files. */
  ghost predicate AllFits(ch: Changes, rules: seq<Policy.Rule>, fs: Files) {
    AllReadable(ch.host) && Room(ch.host, rules, fs, Among(ch))
  }

  lemma RoomWrites(ch: Changes, now: int, rules: seq<Policy.Rule>, fs: Files)
    ensures AllFits(ch, rules, fs) ==> !CannotWrite(ch, now, rules, fs)
  {
    if AllFits(ch, rules, fs) { RoomForAll(ch.host, now, rules, fs, Among(ch)); }
  }

  ghost predicate WhyFailed(ch: Changes, now: int, rules: seq<Policy.Rule>, fs: Files, r: Result<Report>) {
    match r
    case Ok(rep) => rep.failed > 0 ==> CannotWrite(ch, now, rules, fs)
    case Err(_) => CannotDelete(ch, rules, fs)
  }

  lemma FinalNothing(fs: Files, fs': Files, chunks: Chunks)
    requires Final(fs, fs', chunks, {})
    ensures fs' == fs
  {
    forall p ensures p in fs <==> p in fs' { assert FinalAt(fs, fs', chunks, {}, p); }
    forall p | p in fs ensures fs[p] == fs'[p] { assert FinalAt(fs, fs', chunks, {}, p); }
  }

  lemma BegunOthers(undos: Undos, begun: Undos, undos': Undos, u: nat)
    requires u !in undos && begun == undos[u := map[]] && OtherRecords(begun, undos', u)
    ensures OtherRecords(undos, undos', u) && undos'.Keys == undos.Keys + {u}
  {
    forall id ensures OtherRecordAt(undos, undos', u, id) { assert OtherRecordAt(begun, undos', u, id); }
    forall id ensures id in undos' <==> id in undos + map[u := map[]] { assert OtherRecordAt(begun, undos', u, id); }
  }

  ghost predicate StaysAt(rules: seq<Policy.Rule>, fs0: Files, fs: Files, q: Path) {
    Policy.Protected(rules, q) ==> Captured(fs, q) == Captured(fs0, q)
  }

  /** Every protected row is there as it was, and none came. */
  ghost predicate ProtectedStay(rules: seq<Policy.Rule>, fs0: Files, fs: Files) {
    forall q {:trigger StaysAt(rules, fs0, fs, q)} :: StaysAt(rules, fs0, fs, q)
  }

  lemma MidwayStays(host: Host, now: int, rules: seq<Policy.Rule>, fs0: Files, fs: Files)
    requires Midway(host, now, rules, fs0, fs)
    ensures ProtectedStay(rules, fs0, fs)
  {
    forall q ensures StaysAt(rules, fs0, fs, q) { assert MidAt(host, now, rules, fs0, fs, q); }
  }

  /** The same tree has the same rows. */
  lemma SameRows(rules: seq<Policy.Rule>, fs0: Files, a: Chunks, fs: Files, b: Chunks)
    requires TreeOf(fs, b, Live) == TreeOf(fs0, a, Live)
    ensures ProtectedStay(rules, fs0, fs)
  {
    var s, t := TreeOf(fs, b, Live), TreeOf(fs0, a, Live);
    forall q ensures StaysAt(rules, fs0, fs, q) {
      assert q in s <==> q in t;
      if q in s { assert s[q] == t[q]; }
    }
  }

  /** The sync of a command under a record that is still empty. */
  method SyncUnder(c: Connection, u: nat, ch: Changes, now: int) returns (r: Result<Report>)
    requires Sound(c) && c.dirty == {} && u in c.undos && c.undos[u] == map[]
    modifies c`fs, c`chunks, c`blobs, c`dirty, c`logical, c`undos
    ensures Covered(c, old(c.undos), old(c.fs), old(c.chunks), u)
    ensures r.Ok? && r.value.failed == 0 ==> HostShown(old(c.fs), c.fs, c.chunks, ch, now)
    ensures r.Err? && ch.paths.Some? ==> c.fs == old(c.fs) && c.chunks == old(c.chunks)
    ensures WhyFailed(ch, now, old(c.rules), old(c.fs), r)
    ensures c.rules == [] ==> r.Ok? && (AllReadable(ch.host) ==> r.value.failed == 0)
    ensures ProtectedStay(old(c.rules), old(c.fs), c.fs)
  {
    ghost var fs, a := c.fs, c.chunks;
    BeginCovered(c, u);
    ghost var fs0, done;
    if ch.paths.Some? {
      r, fs0, done := SyncPaths(c, u, ch.host, ch.alias, ch.paths.value, now);
    } else {
      r, fs0, done := SyncTree(c, u, ch.host, ch.alias, false, now);
    }
    assert done == {};
    FinalNothing(fs, fs0, a);
    MidwayStays(ch.host, now, c.rules, fs, c.fs);
    if r.Err? && ch.paths.Some? { BeginCovered(c, u); }
  }

  /** Open a record and sync under it. However the sync ends, the record covers what it did. */
  method SyncCommand(c: Connection, ch: Changes, now: int) returns (r: Result<Report>, u: nat)
    requires Sound(c) && c.dirty == {}
    modifies c`fs, c`chunks, c`blobs, c`dirty, c`logical, c`undos
    ensures Sound(c) && c.dirty == {}
    ensures u > 0 && (forall i {:trigger i in old(c.undos)} :: i in old(c.undos) ==> i < u)
    ensures (u == 1 || u - 1 in old(c.undos))
    ensures c.undos.Keys == old(c.undos).Keys + {u} && u in LogOf(c)
    ensures LogOf(c) == old(LogOf(c))[u := LogOf(c)[u]]
    ensures Covers(LogOf(c)[u], old(LiveTree(c)), LiveTree(c)) && SnapTrees(c) == old(SnapTrees(c)) && ExactKept(c)
    ensures r.Ok? && r.value.failed == 0 ==> HostShown(old(c.fs), c.fs, c.chunks, ch, now)
    ensures r.Err? && ch.paths.Some? ==> LiveTree(c) == old(LiveTree(c))
    ensures WhyFailed(ch, now, old(c.rules), old(c.fs), r)
    ensures c.rules == [] ==> r.Ok? && (AllReadable(ch.host) ==> r.value.failed == 0)
    ensures ProtectedStay(old(c.rules), old(c.fs), c.fs)
  {
    ghost var fs, a, undos := c.fs, c.chunks, c.undos;
    u := UndoBegin(c);
    ghost var begun := c.undos;
    r := SyncUnder(c, u, ch, now);
    BegunOthers(undos, begun, c.undos, u);
    LoggedLog(fs, a, c.fs, c.chunks, undos, c.undos, u);
    LoggedCovers(fs, a, c.fs, c.chunks, c.undos[u], u);
    LoggedSnaps(fs, a, c.fs, c.chunks, c.undos[u], u, c.snaps);
  }

  /** A sync and its change list. */
  method SyncAndDiff(c: Connection, ch: Changes, now: int) returns (r: Result<Report>, u: nat, diff: Diff)
    requires Sound(c) && c.dirty == {}
    modifies c`fs, c`chunks, c`blobs, c`dirty, c`logical, c`undos
    ensures Sound(c) && c.dirty == {}
    ensures u > 0 && (forall i {:trigger i in old(c.undos)} :: i in old(c.undos) ==> i < u)
    ensures (u == 1 || u - 1 in old(c.undos))
    ensures c.undos.Keys == old(c.undos).Keys + {u} && u in LogOf(c)
    ensures LogOf(c) == old(LogOf(c))[u := LogOf(c)[u]]
    ensures Covers(LogOf(c)[u], old(LiveTree(c)), LiveTree(c)) && SnapTrees(c) == old(SnapTrees(c)) && ExactKept(c)
    ensures r.Ok? && r.value.failed == 0 ==> HostShown(old(c.fs), c.fs, c.chunks, ch, now)
    ensures r.Err? && ch.paths.Some? ==> LiveTree(c) == old(LiveTree(c))
    ensures WhyFailed(ch, now, old(c.rules), old(c.fs), r)
    ensures c.rules == [] ==> r.Ok? && (AllReadable(ch.host) ==> r.value.failed == 0)
    ensures ProtectedStay(old(c.rules), old(c.fs), c.fs)
    ensures diff == TreeDiff(old(LiveTree(c)), LiveTree(c))
  {
    ghost var before := LiveTree(c);
    r, u := SyncCommand(c, ch, now);
    diff := UndoDiff(c, u);
    RecordDiffIsTreeDiff(LogOf(c)[u], before, LiveTree(c));
  }

  /** In an exact state with nothing pending every live entry is exact. */
  lemma ExactTables(c: Connection)
    requires Worlds.WorldExact(View(c)) && c.dirty == {}
    ensures AllExact(c.fs, c.chunks)
  {
    forall p ensures ExactRowAt(c.fs, c.chunks, p) { assert Worlds.LiveExact(View(c), p); }
  }

  lemma ExactTree(fs: Files, chunks: Chunks)
    requires AllExact(fs, chunks)
    ensures TreeExact(TreeOf(fs, chunks, Live))
  {
    forall p ensures Worlds.TreeExactAt(TreeOf(fs, chunks, Live), p) { assert ExactRowAt(fs, chunks, p); }
  }

  // ------------------------------------------------------------------ the session

  datatype ExecResult =
    | SyncError                       // the sync as a whole failed
    | RefusedWrites                   // some path could not be written: everything was undone
    | Done(rolledBack: bool, changes: Diff)

  /** Why a command ended as it did: an error for a deletion the rules refuse, refused writes for a path that is
      unreadable or refused when the sync reaches it. If all can be read and there is room for all, it is done
      unless a deletion is refused. */
  ghost predicate Justified(r: ExecResult, ch: Changes, now: int, rules: seq<Policy.Rule>, fs: Files) {
    && (r == SyncError ==> CannotDelete(ch, rules, fs))
    && (r == RefusedWrites ==> CannotWrite(ch, now, rules, fs))
    && (AllFits(ch, rules, fs) ==> r.Done? || CannotDelete(ch, rules, fs))
    && (rules == [] ==> r != SyncError && (AllReadable(ch.host) ==> r.Done?))
  }

  function ResultOf(rep: Result<Report>, undo: bool, diff: Diff): ExecResult {
    if rep.Err? then SyncError else if rep.value.failed > 0 then RefusedWrites else Done(undo, diff)
  }

  lemma Justify(r: ExecResult, ch: Changes, now: int, rules: seq<Policy.Rule>, fs: Files, rep: Result<Report>)
    requires r == SyncError <==> rep.Err?
    requires r == RefusedWrites <==> rep.Ok? && rep.value.failed > 0
    requires WhyFailed(ch, now, rules, fs, rep)
    requires rules == [] ==> rep.Ok? && (AllReadable(ch.host) ==> rep.value.failed == 0)
    ensures Justified(r, ch, now, rules, fs)
  {
    RoomWrites(ch, now, rules, fs);
  }

  /** The step a command from state `s` was, the tree and the log it leaves, and the changes it reports: those made
      if it was kept, those undone if it was rolled back. */
  ghost predicate Ended(r: ExecResult, cmd: Command, s: State, tree: Tree, log: Log) {
    match r
    case SyncError => cmd.Kept? && cmd.after == tree
    case RefusedWrites => cmd.Refused? && tree == s.tree && log == s.log
    case Done(false, diff) => cmd.Kept? && cmd.after == tree && diff == TreeDiff(s.tree, tree)
    case Done(true, diff) => cmd.RolledBack? && tree == s.tree && diff == TreeDiff(s.tree, cmd.during)
  }

  ghost function StateOf(c: Connection, top: nat): State
    reads c
  {
    State(LiveTree(c), LogOf(c), top)
  }

  /** How a command that was covered by `record` can end. */
  lemma EndsOf(s: State, u: nat, record: Record, during: Tree)
    requires u == s.top + 1 && u !in s.log && Covers(record, s.tree, during)
    ensures Worlds.Apply(during, record) == s.tree && s.log[u := record] - {u} == s.log
    ensures Next(s, Command.Kept(record, during)) == State(during, s.log[u := record], u)
    ensures Next(s, Command.RolledBack(record, during)) == State(s.tree, s.log[u := record], u)
    ensures Next(s, Command.Refused(record, during)) == s
  {
    ApplyUndoes(record, s.tree, during);
  }

  /** `trees[i]` is what record `i` makes of `trees[i + 1]`. */
  ghost predicate ChainAt(trees: seq<Tree>, log: Log, i: nat) {
    i + 1 < |trees| && trees[i] == if i in log then Worlds.Apply(trees[i + 1], log[i]) else trees[i + 1]
  }

  /** The trees a rewind passes through. */
  lemma Chain(s: State, u: nat) returns (trees: seq<Tree>)
    requires u in s.log && u <= s.top
    ensures |trees| == s.top + 2 && trees[|trees| - 1] == s.tree
    ensures forall i: nat {:trigger ChainAt(trees, s.log, i)} :: i <= s.top ==> ChainAt(trees, s.log, i)
    ensures CanRun(s, Command.Rewind(u)) && Next(s, Command.Rewind(u)) == State(trees[u], s.log, s.top)
  {
    var t, log, top := s.tree, s.log, s.top;
    trees := seq(top + 2, i requires 0 <= i < top + 2 => Rewound(t, log, i, top));
    forall i: nat {:trigger ChainAt(trees, log, i)} | i <= top ensures ChainAt(trees, log, i) {
      assert trees[i] == Rewound(t, log, i, top) && trees[i + 1] == Rewound(t, log, i + 1, top);
    }
  }

  /** The id after the newest becomes the newest. */
  lemma NewestAfter(ids: set<nat>, top: nat, u: nat)
    requires IsNewest(ids, top) && u > 0 && (forall i {:trigger i in ids} :: i in ids ==> i < u)
    requires u == 1 || u - 1 in ids
    ensures u == top + 1 && u !in ids && ids + {u} - {u} == ids && IsNewest(ids + {u}, u)
  {
  }

  method ApplyIfThere(c: Connection, i: nat, ghost log: Log)
    requires Sound(c) && c.dirty == {} && LogOf(c) == log
    modifies c`fs, c`chunks, c`blobs, c`dirty, c`logical
    ensures Sound(c) && c.dirty == {} && LogOf(c) == log && SnapTrees(c) == old(SnapTrees(c))
    ensures LiveTree(c) == if i in log then Worlds.Apply(old(LiveTree(c)), log[i]) else old(LiveTree(c))
  {
    if i in c.undos { ApplyRecord(c, i); }
  }

  /** Apply the records `u..newest`, newest first. */
  method ApplyDown(c: Connection, u: nat, newest: nat, ghost trees: seq<Tree>, ghost log: Log)
    requires Sound(c) && c.dirty == {} && u <= newest && LogOf(c) == log
    requires |trees| == newest + 2 && trees[|trees| - 1] == LiveTree(c)
    requires forall i: nat {:trigger ChainAt(trees, log, i)} :: i <= newest ==> ChainAt(trees, log, i)
    modifies c`fs, c`chunks, c`blobs, c`dirty, c`logical
    ensures Sound(c) && c.dirty == {} && LogOf(c) == log && LiveTree(c) == trees[u]
    ensures SnapTrees(c) == old(SnapTrees(c))
  {
    var next := newest + 1;
    while next > u
      invariant u <= next <= newest + 1
      invariant Sound(c) && c.dirty == {} && LogOf(c) == log && LiveTree(c) == trees[next]
      invariant SnapTrees(c) == old(SnapTrees(c))
    {
      next := next - 1;
      assert ChainAt(trees, log, next);
      ApplyIfThere(c, next, log);
    }
  }

  class Session {
    const conn: Connection
    ghost const start: State
    ghost const snaps: map<nat, Tree>
    /** Whether every hash was exact at the start. */
    ghost const exact: bool
    ghost var history: seq<Command>
    ghost var top: nat

    /** The database is where the history leads from the start, `top` is its newest record, and from an exact start
        every command left exact files. */
    ghost predicate Valid()
      reads this, conn
    {
      && Sound(conn) && conn.dirty == {} && IsNewest(conn.undos.Keys, top) && SnapTrees(conn) == snaps
      && CanRunAll(start, history) && After(start, history) == StateOf(conn, top)
      && Exactly(history)
    }

    ghost predicate Exactly(cs: seq<Command>) {
      && IsNewest(start.log.Keys, start.top)
      && (exact ==> Worlds.WorldExact(WorldOf(start, snaps)) && ExactHistory(cs))
    }

    /** From an exact start every live file, every snapshot and every undo record is exact after any history of
        commands and rewinds, because that history is a run of the store. */
    lemma AlwaysExact()
      requires Valid() && exact
      ensures Worlds.WorldExact(View(conn))
    {
      var ops := HistorySteps(start, snaps, history);
      Worlds.HashesExactOverRuns(WorldOf(start, snaps), ops);
    }

    /** A session on a database whose pending hashes are computed, as materializing its tree leaves it. */
    constructor (c: Connection)
      requires Sound(c) && c.dirty == {}
      ensures Valid() && conn == c && history == [] && exact == Worlds.WorldExact(View(c))
    {
      ghost var v := View(c);
      conn, history, snaps, exact := c, [], v.snaps, Worlds.WorldExact(v);
      var next := NextId(c.undos.Keys);
      top := next - 1;
      start := State(v.live, v.undos, next - 1);
      assert v == WorldOf(State(v.live, v.undos, next - 1), v.snaps);
    }

    /** Between the sync of a command and its end: the record `u` covers what was done since state `s`. */
    ghost predicate Pending(s: State, u: nat, record: Record)
      reads this, conn
    {
      && Sound(conn) && conn.dirty == {} && u in conn.undos && u == s.top + 1 && u !in s.log
      && CanRunAll(start, history) && After(start, history) == s
      && LogOf(conn) == s.log[u := record] && Covers(record, s.tree, LiveTree(conn))
      && SnapTrees(conn) == snaps && Exactly(history) && (exact ==> TreeExact(LiveTree(conn)))
      && IsNewest(conn.undos.Keys, u) && IsNewest(conn.undos.Keys - {u}, s.top)
    }

    ghost method Record(cmd: Command, s: State)
      requires Sound(conn) && conn.dirty == {} && IsNewest(conn.undos.Keys, top)
      requires CanRunAll(start, history) && After(start, history) == s && CanRun(s, cmd)
      requires Next(s, cmd) == StateOf(conn, top) && SnapTrees(conn) == snaps
      requires Exactly(history) && (exact ==> ExactCommand(cmd))
      modifies this`history
      ensures Valid() && history == old(history) + [cmd]
    {
      AfterOneMore(start, history, cmd);
      if exact { ExactMore(history, cmd); }
      history := history + [cmd];
    }

    method Keep(u: nat, ghost s: State, ghost record: Record)
      requires Pending(s, u, record)
      modifies this
      ensures Valid() && history == old(history) + [Command.Kept(record, old(LiveTree(conn)))]
    {
      ghost var during := LiveTree(conn);
      EndsOf(s, u, record, during);
      top := u;
      Record(Command.Kept(record, during), s);
    }

    method RollBack(u: nat, ghost s: State, ghost record: Record)
      requires Pending(s, u, record)
      modifies this, conn`fs, conn`chunks, conn`blobs, conn`dirty, conn`logical, conn`undos
      ensures Valid() && history == old(history) + [Command.RolledBack(record, old(LiveTree(conn)))]
      ensures LiveTree(conn) == s.tree
    {
      ghost var during := LiveTree(conn);
      EndsOf(s, u, record, during);
      ApplyRecord(conn, u);
      top := u;
      Record(Command.RolledBack(record, during), s);
    }

    method Refuse(u: nat, ghost s: State, ghost record: Record)
      requires Pending(s, u, record)
      modifies this, conn`fs, conn`chunks, conn`blobs, conn`dirty, conn`logical, conn`undos
      ensures Valid() && history == old(history) + [Command.Refused(record, old(LiveTree(conn)))]
      ensures LiveTree(conn) == s.tree && LogOf(conn) == s.log
    {
      ghost var during := LiveTree(conn);
      EndsOf(s, u, record, during);
      ghost var ids := conn.undos.Keys - {u};
      UndoAndDrop(conn, u);
      assert conn.undos.Keys == ids;
      top := s.top;
      assert StateOf(conn, top) == s;
      Record(Command.Refused(record, during), s);
    }

    /** Open a record, sync under it, and list what changed. */
    method Sync(ch: Changes, now: int) returns (rep: Result<Report>, u: nat, diff: Diff, ghost record: Record)
      requires Valid()
      modifies conn`fs, conn`chunks, conn`blobs, conn`dirty, conn`logical, conn`undos
      ensures Pending(old(StateOf(conn, top)), u, record)
      ensures rep.Ok? && rep.value.failed == 0 ==> HostShown(old(conn.fs), conn.fs, conn.chunks, ch, now)
      ensures diff == TreeDiff(old(LiveTree(conn)), LiveTree(conn))
      ensures rep.Err? && ch.paths.Some? ==> LiveTree(conn) == old(LiveTree(conn))
      ensures conn.rules == [] ==> rep.Ok? && (AllReadable(ch.host) ==> rep.value.failed == 0)
      ensures WhyFailed(ch, now, old(conn.rules), old(conn.fs), rep)
      ensures ProtectedStay(old(conn.rules), old(conn.fs), conn.fs)
    {
      ghost var ids := conn.undos.Keys;
      if exact {
        AlwaysExact();
        ExactTables(conn);
      }
      rep, u, diff := SyncAndDiff(conn, ch, now);
      record := LogOf(conn)[u];
      if exact { ExactTree(conn.fs, conn.chunks); }
      NewestAfter(ids, top, u);
    }

    /** Run one command: sync what it changed under a new record, undo it if some write was refused or the
        command failed and a rollback was asked for. The call is exactly one step of the abstract machine. */
    method Exec(ch: Changes, failed: bool, rollback: bool, now: int) returns (r: ExecResult, ghost cmd: Command)
      requires Valid()
      modifies this, conn`fs, conn`chunks, conn`blobs, conn`dirty, conn`logical, conn`undos
      ensures Valid() && history == old(history) + [cmd] && SnapTrees(conn) == old(SnapTrees(conn))
      ensures r.Done? && !r.rolledBack ==> HostShown(old(conn.fs), conn.fs, conn.chunks, ch, now)
      ensures Justified(r, ch, now, old(conn.rules), old(conn.fs))
      ensures ProtectedStay(old(conn.rules), old(conn.fs), conn.fs)
      ensures Ended(r, cmd, old(StateOf(conn, top)), LiveTree(conn), LogOf(conn))
      ensures r.Done? ==> r.rolledBack == (failed && rollback)
      ensures r == SyncError && ch.paths.Some? ==> LiveTree(conn) == old(LiveTree(conn))
    {
      ghost var s, fs, chunks0, rules := StateOf(conn, top), conn.fs, conn.chunks, conn.rules;
      var rep, u, diff, record := Sync(ch, now);
      r := ResultOf(rep, failed && rollback, diff);
      Justify(r, ch, now, rules, fs, rep);
      cmd := Conclude(u, r, s, record);
      if r == RefusedWrites || (r.Done? && r.rolledBack) { SameRows(rules, fs, chunks0, conn.fs, conn.chunks); }
    }

    /** End a synced command as `r` says: keep the step, refuse it, or roll it back. */
    method Conclude(u: nat, r: ExecResult, ghost s: State, ghost record: Record) returns (ghost cmd: Command)
      requires Pending(s, u, record) && (r.Done? ==> r.changes == TreeDiff(s.tree, LiveTree(conn)))
      modifies this, conn`fs, conn`chunks, conn`blobs, conn`dirty, conn`logical, conn`undos
      ensures Valid() && history == old(history) + [cmd]
      ensures Ended(r, cmd, s, LiveTree(conn), LogOf(conn))
      ensures r == SyncError || (r.Done? && !r.rolledBack) ==>
        LiveTree(conn) == old(LiveTree(conn)) && conn.fs == old(conn.fs) && conn.chunks == old(conn.chunks)
    {
      ghost var during := LiveTree(conn);
      match r
      case RefusedWrites =>
        Refuse(u, s, record);
        cmd := Command.Refused(record, during);
      case Done(true, _) =>
        RollBack(u, s, record);
        cmd := Command.RolledBack(record, during);
      case _ =>
        Keep(u, s, record);
        cmd := Command.Kept(record, during);
    }

    /** Apply every record from `u` on, newest first. After any history in which command `i` left record `u`
        and nothing was rewound below it since, the tree is the one command `i` started from. */
    method Rewind(u: nat) returns (ok: bool)
      requires Valid()
      modifies this, conn`fs, conn`chunks, conn`blobs, conn`dirty, conn`logical, conn`undos
      ensures Valid() && ok == (u in old(conn.undos)) && conn.undos == old(conn.undos)
      ensures SnapTrees(conn) == old(SnapTrees(conn))
      ensures !ok ==> history == old(history) && LiveTree(conn) == old(LiveTree(conn))
      ensures ok ==> history == old(history) + [Command.Rewind(u)]
      ensures forall i: nat {:trigger LeftPoint(start, old(history), i, u)} ::
        LeftPoint(start, old(history), i, u) ==> ok && LiveTree(conn) == After(start, old(history)[..i]).tree
    {
      ghost var s, past := StateOf(conn, top), history;
      forall i: nat {:trigger LeftPoint(start, past, i, u)} | LeftPoint(start, past, i, u)
        ensures CanRun(s, Command.Rewind(u)) && Next(s, Command.Rewind(u)).tree == After(start, past[..i]).tree
      {
        PointRestores(start, past, i, u);
      }
      if u !in conn.undos { return false; }
      RewindTo(u, s);
      ok := true;
    }

    method RewindTo(u: nat, ghost s: State)
      requires Valid() && u in conn.undos && s == StateOf(conn, top)
      modifies this, conn`fs, conn`chunks, conn`blobs, conn`dirty, conn`logical, conn`undos
      ensures Valid() && conn.undos == old(conn.undos) && history == old(history) + [Command.Rewind(u)]
      ensures CanRun(s, Command.Rewind(u)) && LiveTree(conn) == Next(s, Command.Rewind(u)).tree
    {
      var next := NextId(conn.undos.Keys);
      NewestAfter(conn.undos.Keys, top, next);
      ghost var trees := Chain(s, u);
      ApplyDown(conn, u, next - 1, trees, s.log);
      Record(Command.Rewind(u), s);
    }
  }
}
