/** A whole sync: of the paths a watcher reported, and of the full tree. Both finalize the pending hashes
    first and capture every row before it is written or deleted. */
module SyncRuns {
  import opened Tables
  import opened Policy
  import opened Connections
  import opened Views
  import opened Read
  import opened Store
  import opened Hashes
  import opened UndoRecords
  import opened Discipline
  import opened Sync

  datatype Report = Report(created: nat, updated: nat, same: nat, deleted: nat, failed: nat)

  function Tally(rep: Report, r: Outcome): Report {
    match r
    case Created => rep.(created := rep.created + 1)
    case Updated => rep.(updated := rep.updated + 1)
    case Unchanged => rep.(same := rep.same + 1)
    case Failed => rep.(failed := rep.failed + 1)
  }

  /** The mount points and runtime artefacts a sync never mirrors. Everything below `/tmp` is among them. */
  predicate Reserved(p: Path) {
    || p == []
    || p[0] in {"dev", "proc", "sys", "tmp", ".selfdb"}
    || (exists i :: 0 <= i < |p| && "__pycache__" <= p[i])
    || ["opt", "piagent"] <= p
  }

  /** Something of the old tables that this sync must keep: the step so far is covered by record `u`. */
  ghost predicate Covered(c: Connection, undos: Undos, fs0: Files, a: Chunks, u: nat)
    reads c
  {
    && Sound(c) && c.dirty == {} && OtherRecords(undos, c.undos, u)
    && Logged(fs0, a, c.fs, c.chunks, c.undos[u], u)
    && (AllExact(fs0, a) ==> AllExact(c.fs, c.chunks))
  }

  ghost predicate ReadableAt(host: Host, p: Path) {
    p in host ==> CanRead(host[p])
  }

  /** Every host entry can be read. */
  ghost predicate AllReadable(host: Host) {
    forall p {:trigger ReadableAt(host, p)} :: ReadableAt(host, p)
  }

  lemma ReservedIff(p: Path)
    ensures Reserved(p) <==>
      || p == []
      || (exists rest: Path {:trigger ["dev"] + rest} :: p == ["dev"] + rest)
      || (exists rest: Path {:trigger ["proc"] + rest} :: p == ["proc"] + rest)
      || (exists rest: Path {:trigger ["sys"] + rest} :: p == ["sys"] + rest)
      || (exists rest: Path {:trigger ["tmp"] + rest} :: p == ["tmp"] + rest)
      || (exists rest: Path {:trigger [".selfdb"] + rest} :: p == [".selfdb"] + rest)
      || (exists rest: Path {:trigger ["opt", "piagent"] + rest} :: p == ["opt", "piagent"] + rest)
      || (exists a: Path, tail: Name, rest: Path {:trigger a + ["__pycache__" + tail] + rest} ::
        p == a + ["__pycache__" + tail] + rest)
  {
    if p != [] { assert p == [p[0]] + p[1..]; }
    if ["opt", "piagent"] <= p { assert p == ["opt", "piagent"] + p[2..]; }
    if i :| 0 <= i < |p| && "__pycache__" <= p[i] {
      var tail := p[i][|"__pycache__"|..];
      assert p[i] == "__pycache__" + tail && p == p[..i] + ["__pycache__" + tail] + p[i + 1..];
    }
    if a: Path, tail: Name, rest: Path {:trigger a + ["__pycache__" + tail] + rest} :|
      p == a + ["__pycache__" + tail] + rest
    {
      assert p[|a|] == "__pycache__" + tail && "__pycache__" <= p[|a|];
    }
  }

  // ------------------------------------------------------------------ why a sync fails

  /** Row `q` part way through a sync that started from `fs0`: as it was, or, where no rule protects it, gone or the
      host's. */
  ghost predicate MidAt(host: Host, now: int, rules: seq<Rule>, fs0: Files, fs: Files, q: Path) {
    || Captured(fs, q) == Captured(fs0, q)
    || (!Protected(rules, q) && (q in fs ==> q in host && RowOf(host[q], now, fs[q])))
  }

  /** Rows that a sync of the host from `fs0` can have reached. */
  ghost predicate Midway(host: Host, now: int, rules: seq<Rule>, fs0: Files, fs: Files) {
    forall q {:trigger MidAt(host, now, rules, fs0, fs, q)} :: MidAt(host, now, rules, fs0, fs, q)
  }

  lemma MidwayTrans(host: Host, now: int, rules: seq<Rule>, fs0: Files, m: Files, fs: Files)
    requires Midway(host, now, rules, fs0, m) && Midway(host, now, rules, m, fs)
    ensures Midway(host, now, rules, fs0, fs)
  {
    forall q ensures MidAt(host, now, rules, fs0, fs, q) {
      assert MidAt(host, now, rules, m, fs, q) && MidAt(host, now, rules, fs0, m, q);
    }
  }

  lemma MidwaySelf(host: Host, now: int, rules: seq<Rule>, fs: Files)
    ensures Midway(host, now, rules, fs, fs)
  {
    forall q ensures MidAt(host, now, rules, fs, fs, q) {}
  }

  lemma MidwayOne(host: Host, now: int, rules: seq<Rule>, fs: Files, fs': Files, p: Path)
    requires OnlyRows(fs, fs', {p})
    requires Captured(fs', p) == Captured(fs, p) ||
      (p in host && p in fs' && RowOf(host[p], now, fs'[p]) && !Protected(rules, p))
    ensures Midway(host, now, rules, fs, fs')
  {
    forall q ensures MidAt(host, now, rules, fs, fs', q) { assert SameRowAt(fs, fs', {p}, q); }
  }

  lemma MidwayLess(host: Host, now: int, rules: seq<Rule>, fs: Files, ps: set<Path>)
    requires forall p {:trigger p in ps} :: p in ps ==> !Protected(rules, p)
    ensures Midway(host, now, rules, fs, fs - ps)
  {
    var f := fs - ps;
    forall q ensures MidAt(host, now, rules, fs, f, q) {}
  }

  /** The host's entry at `p` cannot be read, or the rules refuse to write it over the rows `fs`. */
  ghost predicate Unwritable(host: Host, rules: seq<Rule>, p: Path, fs: Files) {
    p in host && !Reserved(p) && (!CanRead(host[p]) || RefusedWrite(host[p], rules, fs, Total(fs), p))
  }

  /** Some path of `among` is not writable when the sync reaches it. */
  ghost predicate Culprit(host: Host, now: int, rules: seq<Rule>, fs0: Files, among: set<Path>) {
    exists p, fs {:trigger Unwritable(host, rules, p, fs)} ::
      p in among && Unwritable(host, rules, p, fs) && Midway(host, now, rules, fs0, fs)
  }

  /** The regular files of the host, with the sizes they will have. */
  ghost function HostFiles(host: Host): Files {
    map p | p in host && host[p].HostFile? && host[p].content.Some? ::
      Row(File, host[p].mode, host[p].mtime, 0, |host[p].content.value.data|, None, None)
  }

  /** The rules leave room for the host: no path of `among` is protected, no file is too large, and all host files
      together fit under every quota beside what is there. */
  ghost predicate Room(host: Host, rules: seq<Rule>, fs0: Files, among: set<Path>) {
    && (forall p {:trigger p in among} :: p in among && p in host ==> !Protected(rules, p))
    && (forall r, p {:trigger r in rules, p in HostFiles(host)} ::
      r in rules && r.MaxFileSize? && p in HostFiles(host) ==> HostFiles(host)[p].size <= r.bytes)
    && (forall r {:trigger r in rules} ::
      r in rules && r.DiskQuota? ==> Total(fs0) + Total(HostFiles(host)) <= r.bytes)
  }

  /** With room for them and every entry readable, nothing is in the way of writing the host's files, in whatever
      order they come. */
  lemma RoomForAll(host: Host, now: int, rules: seq<Rule>, fs0: Files, among: set<Path>)
    requires AllReadable(host) && Room(host, rules, fs0, among)
    ensures !Culprit(host, now, rules, fs0, among)
  {
    forall p, fs {:trigger Unwritable(host, rules, p, fs)}
      | p in among && Midway(host, now, rules, fs0, fs)
      ensures !Unwritable(host, rules, p, fs)
    {
      assert ReadableAt(host, p);
      if p in host && host[p].HostFile? && CanRead(host[p]) {
        FitsMidway(host, now, rules, fs0, fs, among, p);
      }
    }
  }

  lemma FitsMidway(host: Host, now: int, rules: seq<Rule>, fs0: Files, fs: Files, among: set<Path>, p: Path)
    requires Room(host, rules, fs0, among) && p in among && p in host && Midway(host, now, rules, fs0, fs)
    requires host[p].HostFile? && CanRead(host[p])
    ensures !RefusedWrite(host[p], rules, fs, Total(fs), p)
  {
    var e := host[p];
    var row := FileRow(e.mode, e.mtime, e.before, e.content.value.data);
    var after, h := fs[p := row], HostFiles(host);
    forall q ensures WeightAt(after, q) <= WeightAt(fs0, q) + WeightAt(h, q) {
      assert MidAt(host, now, rules, fs0, fs, q);
    }
    TotalAtMost(after, fs0, h);
    RefusedIff(rules, fs, p, row);
    ProtectedIff(rules, p);
    assert p in h;
    forall r | r in rules ensures !Forbids(r, fs, p, row) {
      assert r.ReadonlyPrefix? ==> ReadonlyPrefix(r.prefix) in rules;
    }
  }

  /** A protected row `q` at or below a path `p` that is missing on the host. */
  ghost predicate KeepsBelow(host: Host, alias: map<Path, Path>, rules: seq<Rule>, fs: Files, p: Path, q: Path) {
    p !in host && !Reserved(p) && q in fs && (if p in alias then alias[p] else p) <= q && Protected(rules, q)
  }

  ghost predicate DeletionRefused(host: Host, alias: map<Path, Path>, rules: seq<Rule>, fs0: Files, among: set<Path>) {
    exists p, q {:trigger KeepsBelow(host, alias, rules, fs0, p, q)} ::
      p in among && KeepsBelow(host, alias, rules, fs0, p, q)
  }

  /** How a path changes the report: a missing one counts the rows it removes, a created row, an up-to-date row and a
      failure count once each, anything else written is an update. */
  ghost predicate Tallied(host: Host, alias: map<Path, Path>, full: bool, rules: seq<Rule>, fs: Files, fs': Files,
                          p: Path, rep: Report, rep': Report) {
    if Reserved(p) || (p in host && host[p].HostLink? && p in alias) then rep' == rep
    else if p !in host then
      var row := if p in alias then alias[p] else p;
      rep' == rep.(deleted := rep.deleted + |set q | q in fs && row <= q|)
    else
      && rep'.deleted == rep.deleted
      && rep'.created == rep.created + (if p !in fs && p in fs' then 1 else 0)
      && rep'.same == rep.same + (if UpToDate(host[p], Captured(fs, p), full) then 1 else 0)
      && rep'.failed == rep.failed +
        (if !UpToDate(host[p], Captured(fs, p), full) && Unwritable(host, rules, p, fs) then 1 else 0)
      && rep'.updated + rep'.created + rep'.same + rep'.failed == rep.updated + rep.created + rep.same + rep.failed + 1
  }

  /** The rows that syncing a reported path can touch: its own, or those of a subtree missing on the host. */
  function Touches(host: Host, alias: map<Path, Path>, fs: Files, p: Path): set<Path> {
    if Reserved(p) then {}
    else if p in host then {p}
    else var row := if p in alias then alias[p] else p; set q | q in fs && row <= q
  }

  /** Sync one reported path: bring its row in line, or delete it with everything below it. */
  method SyncPath(c: Connection, u: nat, host: Host, alias: map<Path, Path>, p: Path, now: int, rep: Report,
                  ghost undos: Undos, ghost fs0: Files, ghost a: Chunks) returns (r: Result<Report>)
    requires Covered(c, undos, fs0, a, u)
    modifies c`fs, c`chunks, c`blobs, c`dirty, c`logical, c`undos
    ensures Covered(c, undos, fs0, a, u)
    ensures r.Err? <==> exists q {:trigger KeepsBelow(host, alias, c.rules, old(c.fs), p, q)} ::
      KeepsBelow(host, alias, c.rules, old(c.fs), p, q)
    ensures r.Ok? && r.value.failed > rep.failed ==> Unwritable(host, c.rules, p, old(c.fs))
    ensures r.Ok? && r.value.failed == rep.failed && p in host && !Reserved(p) ==>
      || (host[p].HostLink? && p in alias) || UpToDate(host[p], Captured(old(c.fs), p), false)
      || !Unwritable(host, c.rules, p, old(c.fs))
    ensures Midway(host, now, c.rules, old(c.fs), c.fs)
    ensures r.Ok? ==> Tallied(host, alias, false, c.rules, old(c.fs), c.fs, p, rep, r.value)
    ensures r.Ok? && c.rules == [] && ReadableAt(host, p) ==> r.value.failed == rep.failed
    ensures OnlyRows(old(c.fs), c.fs, Touches(host, alias, old(c.fs), p))
    ensures OnlyLive(old(c.chunks), c.chunks, Touches(host, alias, old(c.fs), p))
    ensures r.Ok? ==> r.value.failed >= rep.failed
    ensures r.Ok? && p !in host ==> c.fs == old(c.fs) - Touches(host, alias, old(c.fs), p)
    ensures r.Ok? && r.value.failed == rep.failed ==> PathDone(host, alias, now, c.fs, c.chunks, p)
  {
    OnlyAny(c.fs, c.chunks, Touches(host, alias, c.fs, p));
    MidwaySelf(host, now, c.rules, c.fs);
    if Reserved(p) { return Ok(rep); }
    if p !in host {
      r := SyncMissing(c, u, host, alias, p, now, rep, undos, fs0, a);
      return;
    }
    if host[p].Unreadable? { return Ok(rep.(failed := rep.failed + 1)); }
    if host[p].HostLink? && p in alias { return Ok(rep); }
    var counted := SyncPresent(c, u, host, alias, false, p, now, rep, undos, fs0, a);
    r := Ok(counted);
  }

  /** Bring the row of an entry in line and count what that was. */
  method SyncPresent(c: Connection, u: nat, host: Host, alias: map<Path, Path>, full: bool, p: Path, now: int,
                     rep: Report, ghost undos: Undos, ghost fs0: Files, ghost a: Chunks) returns (rep': Report)
    requires Covered(c, undos, fs0, a, u) && p in host && !Reserved(p)
    requires !host[p].Unreadable? && !(host[p].HostLink? && p in alias)
    modifies c`fs, c`chunks, c`blobs, c`dirty, c`logical, c`undos
    ensures Covered(c, undos, fs0, a, u) && old(c.fs).Keys <= c.fs.Keys
    ensures OnlyRows(old(c.fs), c.fs, {p}) && OnlyLive(old(c.chunks), c.chunks, {p})
    ensures Midway(host, now, c.rules, old(c.fs), c.fs)
    ensures Tallied(host, alias, full, c.rules, old(c.fs), c.fs, p, rep, rep')
    ensures rep'.failed == rep.failed ==> SyncedAt(host, alias, now, c.fs, c.chunks, full, p)
  {
    ghost var before := c.undos;
    var one := SyncOne(c, u, p, host[p], full, now, fs0, a);
    OtherRecordsMore(undos, before, c.undos, u);
    MidwayOne(host, now, c.rules, old(c.fs), c.fs, p);
    forall q | q in old(c.fs) ensures q in c.fs { assert SameRowAt(old(c.fs), c.fs, {p}, q); }
    rep' := Tally(rep, one);
  }

  lemma BelowKeeps(host: Host, alias: map<Path, Path>, rules: seq<Rule>, fs: Files, p: Path, below: set<Path>)
    requires p !in host && !Reserved(p) && below == set q | q in fs && (if p in alias then alias[p] else p) <= q
    ensures forall q {:trigger KeepsBelow(host, alias, rules, fs, p, q)} ::
      KeepsBelow(host, alias, rules, fs, p, q) <==> q in below && Protected(rules, q)
  {
  }

  /** A reported path that is missing on the host goes with everything below it, unless a rule protects some row
      of that. */
  method SyncMissing(c: Connection, u: nat, host: Host, alias: map<Path, Path>, p: Path, now: int, rep: Report,
                     ghost undos: Undos, ghost fs0: Files, ghost a: Chunks) returns (r: Result<Report>)
    requires Covered(c, undos, fs0, a, u) && p !in host && !Reserved(p)
    modifies c`fs, c`chunks, c`blobs, c`dirty, c`logical, c`undos
    ensures Covered(c, undos, fs0, a, u)
    ensures r.Err? <==> exists q {:trigger KeepsBelow(host, alias, c.rules, old(c.fs), p, q)} ::
      KeepsBelow(host, alias, c.rules, old(c.fs), p, q)
    ensures Midway(host, now, c.rules, old(c.fs), c.fs)
    ensures OnlyRows(old(c.fs), c.fs, Touches(host, alias, old(c.fs), p))
    ensures OnlyLive(old(c.chunks), c.chunks, Touches(host, alias, old(c.fs), p))
    ensures r.Ok? ==> c.fs == old(c.fs) - Touches(host, alias, old(c.fs), p)
    ensures r.Ok? ==> Tallied(host, alias, false, c.rules, old(c.fs), c.fs, p, rep, r.value)
  {
    ghost var before, fs := c.undos, c.fs;
    var row := if p in alias then alias[p] else p;
    var below := set q | q in c.fs && row <= q;
    var ok := DeleteLogged(c, u, below, fs0, a);
    OtherRecordsMore(undos, before, c.undos, u);
    OnlyWithout(fs, c.fs, below);
    if ok { MidwayLess(host, now, c.rules, fs, below); } else { MidwaySelf(host, now, c.rules, fs); }
    BelowKeeps(host, alias, c.rules, fs, p, below);
    if !ok {
      ghost var q :| q in below && Protected(c.rules, q);
      assert KeepsBelow(host, alias, c.rules, fs, p, q);
      return Err(Refusal);
    }
    r := Ok(rep.(deleted := rep.deleted + |below|));
  }

  /** The host has every directory above an entry, the root aside. */
  ghost predicate Closed(host: Host) {
    forall p, q {:trigger p in host, q in host} :: p in host && q <= p && q != [] ==> q in host
  }

  /** A reported path is brought in line: it shows what the host has, or has no row at or below it. */
  ghost predicate PathDone(host: Host, alias: map<Path, Path>, now: int, fs: Files, chunks: Chunks, p: Path) {
    if p in host || Reserved(p) then SyncedAt(host, alias, now, fs, chunks, false, p)
    else p !in alias ==> forall q {:trigger q in fs} :: p <= q ==> q !in fs
  }

  /** Syncing another path of a host without aliases leaves a path in line. */
  lemma DoneKept(host: Host, now: int, fs: Files, a: Chunks, fs': Files, b: Chunks, p: Path, q: Path)
    requires Closed(host) && PathDone(host, map[], now, fs, a, p) && p != q
    requires OnlyRows(fs, fs', Touches(host, map[], fs, q)) && OnlyLive(a, b, Touches(host, map[], fs, q))
    requires q !in host ==> fs' == fs - Touches(host, map[], fs, q)
    ensures PathDone(host, map[], now, fs', b, p)
  {
    var ps := Touches(host, map[], fs, q);
    if p in host || Reserved(p) {
      if p in ps { assert q <= p && q != [] && Reserved(p); }
      if !Reserved(p) { SyncedKept(host, map[], now, fs, a, fs', b, false, ps, p); }
    } else {
      forall r {:trigger r in fs'} | p <= r ensures r !in fs' {
        assert SameRowAt(fs, fs', ps, r);
        assert p != [];
        assert q in host && r == q ==> p in host;
      }
    }
  }

  /** The first `n` reported paths are in line. */
  ghost predicate AllDone(host: Host, alias: map<Path, Path>, now: int, fs: Files, chunks: Chunks, paths: seq<Path>,
                          n: int) {
    forall j {:trigger paths[j]} :: 0 <= j < n && j < |paths| ==> PathDone(host, alias, now, fs, chunks, paths[j])
  }

  /** Where a sync of reported paths stands, when the host is a tree and no link is kept under another path. */
  ghost predicate InLine(host: Host, alias: map<Path, Path>, now: int, fs: Files, chunks: Chunks, paths: seq<Path>,
                         n: int, rep: Report) {
    alias == map[] && Closed(host) && rep.failed == 0 ==> AllDone(host, alias, now, fs, chunks, paths, n)
  }

  lemma InLineMore(host: Host, alias: map<Path, Path>, now: int, fs: Files, a: Chunks, fs': Files, b: Chunks,
                   paths: seq<Path>, i: nat, rep: Report, rep': Report)
    requires InLine(host, alias, now, fs, a, paths, i, rep) && i < |paths| && rep.failed <= rep'.failed
    requires OnlyRows(fs, fs', Touches(host, alias, fs, paths[i])) && OnlyLive(a, b, Touches(host, alias, fs, paths[i]))
    requires paths[i] !in host ==> fs' == fs - Touches(host, alias, fs, paths[i])
    requires rep'.failed == rep.failed ==> PathDone(host, alias, now, fs', b, paths[i])
    ensures InLine(host, alias, now, fs', b, paths, i + 1, rep')
  {
    if alias == map[] && Closed(host) && rep'.failed == 0 {
      forall j {:trigger paths[j]} | 0 <= j < i + 1 ensures PathDone(host, alias, now, fs', b, paths[j]) {
        if paths[j] != paths[i] { DoneKept(host, now, fs, a, fs', b, paths[j], paths[i]); }
      }
    }
  }

  lemma OnlyAny(fs: Files, chunks: Chunks, ps: set<Path>)
    ensures OnlyRows(fs, fs, ps) && OnlyLive(chunks, chunks, ps)
  {
    forall q ensures SameRowAt(fs, fs, ps, q) {}
    forall s ensures LiveSlotAt(chunks, chunks, ps, s) {}
  }

  lemma OnlyWithout(fs: Files, fs': Files, ps: set<Path>)
    requires fs' == fs || fs' == fs - ps
    ensures OnlyRows(fs, fs', ps)
  {
    forall q ensures SameRowAt(fs, fs', ps, q) {}
  }

  function Listed(paths: seq<Path>): set<Path> {
    set p | p in paths
  }

  /** A sync among these paths that failed did so for a protected row, and one that could not write something for
      a path that is unreadable or refused. */
  ghost predicate Failures(host: Host, alias: map<Path, Path>, now: int, rules: seq<Rule>, fs0: Files, among: set<Path>,
                           r: Result<Report>) {
    match r
    case Ok(rep) => rep.failed > 0 ==> Culprit(host, now, rules, fs0, among)
    case Err(_) => DeletionRefused(host, alias, rules, fs0, among)
  }

  lemma FailuresMore(host: Host, alias: map<Path, Path>, now: int, rules: seq<Rule>, fs0: Files, fs: Files, fs': Files,
                     among: set<Path>, p: Path, failed: nat, r: Result<Report>)
    requires Midway(host, now, rules, fs0, fs) && Midway(host, now, rules, fs, fs') && p in among
    requires failed > 0 ==> Culprit(host, now, rules, fs0, among)
    requires r.Ok? && r.value.failed > failed ==> Unwritable(host, rules, p, fs)
    requires r.Err? ==> exists q {:trigger KeepsBelow(host, alias, rules, fs, p, q)} ::
      KeepsBelow(host, alias, rules, fs, p, q)
    ensures Midway(host, now, rules, fs0, fs') && Failures(host, alias, now, rules, fs0, among, r)
  {
    MidwayTrans(host, now, rules, fs0, fs, fs');
    if r.Err? {
      var q :| KeepsBelow(host, alias, rules, fs, p, q);
      assert MidAt(host, now, rules, fs0, fs, q);
      assert KeepsBelow(host, alias, rules, fs0, p, q);
    }
  }

  method SyncEach(c: Connection, u: nat, host: Host, alias: map<Path, Path>, paths: seq<Path>, now: int,
                  ghost undos: Undos, ghost fs0: Files, ghost a: Chunks) returns (r: Result<Report>)
    requires Covered(c, undos, fs0, a, u)
    modifies c`fs, c`chunks, c`blobs, c`dirty, c`logical, c`undos
    ensures Covered(c, undos, fs0, a, u)
    ensures c.rules == [] ==> r.Ok? && (AllReadable(host) ==> r.value.failed == 0)
    ensures r.Ok? ==> InLine(host, alias, now, c.fs, c.chunks, paths, |paths|, r.value)
    ensures Failures(host, alias, now, old(c.rules), old(c.fs), Listed(paths), r)
    ensures Midway(host, now, old(c.rules), old(c.fs), c.fs)
  {
    r := Ok(Report(0, 0, 0, 0, 0));
    var i := 0;
    MidwaySelf(host, now, c.rules, c.fs);
    while i < |paths| && r.Ok?
      invariant 0 <= i <= |paths| && Covered(c, undos, fs0, a, u)
      invariant c.rules == [] ==> r.Ok? && (AllReadable(host) ==> r.value.failed == 0)
      invariant r.Ok? ==> InLine(host, alias, now, c.fs, c.chunks, paths, i, r.value)
      invariant Midway(host, now, c.rules, old(c.fs), c.fs)
      invariant Failures(host, alias, now, old(c.rules), old(c.fs), Listed(paths), r)
    {
      assert AllReadable(host) ==> ReadableAt(host, paths[i]);
      ghost var fs, chunks, rep := c.fs, c.chunks, r.value;
      r := SyncPath(c, u, host, alias, paths[i], now, r.value, undos, fs0, a);
      if r.Ok? { InLineMore(host, alias, now, fs, chunks, c.fs, c.chunks, paths, i, rep, r.value); }
      FailuresMore(host, alias, now, c.rules, old(c.fs), fs, c.fs, Listed(paths), paths[i], rep.failed, r);
      i := i + 1;
    }
  }

  lemma BeginCovered(c: Connection, u: nat)
    requires Sound(c) && c.dirty == {} && u in c.undos && c.undos[u] == map[]
    ensures Covered(c, c.undos, c.fs, c.chunks, u)
  {
    LogBegin(c.fs, c.chunks, u);
    forall id ensures OtherRecordAt(c.undos, c.undos, u, id) {}
  }

  /** Tables that are sound together, with nothing pending. */
  ghost predicate Together(fs: Files, chunks: Chunks, blobs: Blobs, dicts: Dicts, snaps: Snapshots, undos: Undos,
                           logical: int) {
    && RefOk(chunks, blobs) && Idle(chunks, blobs) == {} && BlobsDecode(dicts, blobs)
    && Rooted(fs, chunks, snaps, undos) && logical == Total(fs)
  }

  /** Put the copies of the tables and of the undo log back. */
  method PutBackLog(c: Connection, fs: Files, chunks: Chunks, blobs: Blobs, logical: int, undos: Undos)
    requires Together(fs, chunks, blobs, c.dicts, c.snaps, undos, logical) && c.dirty == {}
    modifies c`fs, c`chunks, c`blobs, c`logical, c`undos
    ensures Sound(c)
    ensures c.fs == fs && c.chunks == chunks && c.blobs == blobs && c.logical == logical && c.undos == undos
  {
    c.fs, c.chunks, c.blobs, c.logical, c.undos := fs, chunks, blobs, logical, undos;
  }

  /** The reported paths in turn, under a record that is still empty. */
  method SyncBegun(c: Connection, u: nat, host: Host, alias: map<Path, Path>, paths: seq<Path>,
                   now: int) returns (r: Result<Report>)
    requires Sound(c) && c.dirty == {} && u in c.undos && c.undos[u] == map[]
    modifies c`fs, c`chunks, c`blobs, c`dirty, c`logical, c`undos
    ensures Covered(c, old(c.undos), old(c.fs), old(c.chunks), u)
    ensures c.rules == [] ==> r.Ok? && (AllReadable(host) ==> r.value.failed == 0)
    ensures r.Ok? ==> InLine(host, alias, now, c.fs, c.chunks, paths, |paths|, r.value)
    ensures Failures(host, alias, now, old(c.rules), old(c.fs), Listed(paths), r)
    ensures Midway(host, now, old(c.rules), old(c.fs), c.fs)
  {
    BeginCovered(c, u);
    r := SyncEach(c, u, host, alias, paths, now, c.undos, c.fs, c.chunks);
  }

  /** The transaction of a sync of reported paths: a refused deletion rolls all of it back, the captures
      included. */
  method SyncReported(c: Connection, u: nat, host: Host, alias: map<Path, Path>, paths: seq<Path>,
                      now: int) returns (r: Result<Report>)
    requires Sound(c) && c.dirty == {} && u in c.undos && c.undos[u] == map[]
    modifies c`fs, c`chunks, c`blobs, c`dirty, c`logical, c`undos
    ensures Sound(c) && c.dirty == {}
    ensures r.Ok? ==> Covered(c, old(c.undos), old(c.fs), old(c.chunks), u)
    ensures r.Err? ==>
      c.fs == old(c.fs) && c.chunks == old(c.chunks) && c.blobs == old(c.blobs) && c.undos == old(c.undos)
    ensures c.rules == [] ==> r.Ok? && (AllReadable(host) ==> r.value.failed == 0)
    ensures r.Ok? ==> InLine(host, alias, now, c.fs, c.chunks, paths, |paths|, r.value)
    ensures Failures(host, alias, now, old(c.rules), old(c.fs), Listed(paths), r)
    ensures Midway(host, now, old(c.rules), old(c.fs), c.fs)
  {
    MidwaySelf(host, now, c.rules, c.fs);
    var savedFs, savedChunks, savedBlobs, savedUndos, savedLogical := c.fs, c.chunks, c.blobs, c.undos, c.logical;
    assert Together(c.fs, c.chunks, c.blobs, c.dicts, c.snaps, c.undos, c.logical);
    r := SyncBegun(c, u, host, alias, paths, now);
    if r.Err? {
      PutBackLog(c, savedFs, savedChunks, savedBlobs, savedLogical, savedUndos);
    }
  }

  /** Sync the reported paths, parents before their children. Either everything is done and covered by the
      record, or a refused deletion rolls all of it back, the captures included. Without failures, on a host that
      is a tree, every reported path is in line afterwards. */
  method SyncPaths(c: Connection, u: nat, host: Host, alias: map<Path, Path>, paths: seq<Path>, now: int)
    returns (r: Result<Report>, ghost fs0: Files, ghost done: set<Path>)
    requires Sound(c) && u in c.undos && c.undos[u] == map[]
    modifies c`fs, c`chunks, c`blobs, c`dirty, c`logical, c`undos
    ensures Sound(c) && done <= old(c.dirty) && c.dirty == old(c.dirty) - done
    ensures Final(old(c.fs), fs0, old(c.chunks), done)
    ensures r.Ok? ==> Covered(c, old(c.undos), fs0, old(c.chunks), u)
    ensures r.Err? ==> c.fs == fs0 && c.chunks == old(c.chunks) && c.blobs == old(c.blobs) && c.undos == old(c.undos)
    ensures c.rules == [] && old(c.dirty) == {} ==> r.Ok? && (AllReadable(host) ==> r.value.failed == 0)
    ensures r.Ok? ==> InLine(host, alias, now, c.fs, c.chunks, paths, |paths|, r.value)
    ensures r.Ok? || old(c.dirty) == {} ==> Failures(host, alias, now, old(c.rules), fs0, Listed(paths), r)
    ensures Midway(host, now, old(c.rules), fs0, c.fs)
  {
    var f;
    f, done := FinalizeDirty(c);
    fs0 := c.fs;
    MidwaySelf(host, now, c.rules, fs0);
    if f.Err? { return Err(f.error), fs0, done; }
    r := SyncReported(c, u, host, alias, paths, now);
  }

  // ------------------------------------------------------------------ the whole tree

  /** The rows show what the host has at `p`. A link entry under its translated path stands for another row. */
  ghost predicate SyncedAt(host: Host, alias: map<Path, Path>, now: int, fs: Files, chunks: Chunks, full: bool,
                           p: Path) {
    Reserved(p) || (p in host && host[p].HostLink? && p in alias) ||
    (p in host && (Mirrors(host[p], now, fs, chunks, p) || UpToDate(host[p], Captured(fs, p), full)))
  }

  lemma HoldsKept(fs: Files, a: Chunks, fs': Files, b: Chunks, ps: set<Path>, p: Path, s: Bytes)
    requires FileHolds(fs, a, p, s) && p !in ps && OnlyRows(fs, fs', ps) && OnlyLive(a, b, ps)
    ensures FileHolds(fs', b, p, s)
  {
    assert SameRowAt(fs, fs', ps, p);
    forall i: nat ensures HoldsAt(b, p, s, i) {
      assert HoldsAt(a, p, s, i) && LiveSlotAt(a, b, ps, Slot(Live, p, i));
    }
  }

  lemma SyncedKept(host: Host, alias: map<Path, Path>, now: int, fs: Files, a: Chunks, fs': Files, b: Chunks,
                   full: bool, ps: set<Path>, p: Path)
    requires SyncedAt(host, alias, now, fs, a, full, p) && p !in ps && OnlyRows(fs, fs', ps) && OnlyLive(a, b, ps)
    ensures SyncedAt(host, alias, now, fs', b, full, p)
  {
    assert SameRowAt(fs, fs', ps, p);
    if p in host && host[p].HostFile? && Mirrors(host[p], now, fs, a, p) {
      HoldsKept(fs, a, fs', b, ps, p, host[p].content.value.data);
    }
  }

  /** Every path of `ps` shows what the host has. */
  ghost predicate Synced(host: Host, alias: map<Path, Path>, now: int, fs: Files, chunks: Chunks, full: bool,
                         ps: set<Path>) {
    forall p {:trigger SyncedAt(host, alias, now, fs, chunks, full, p)} ::
      p in ps ==> SyncedAt(host, alias, now, fs, chunks, full, p)
  }

  lemma SyncedMore(host: Host, alias: map<Path, Path>, now: int, fs: Files, a: Chunks, fs': Files, b: Chunks,
                   full: bool, ps: set<Path>, p: Path)
    requires Synced(host, alias, now, fs, a, full, ps) && OnlyRows(fs, fs', {p}) && OnlyLive(a, b, {p})
    requires SyncedAt(host, alias, now, fs', b, full, p)
    ensures Synced(host, alias, now, fs', b, full, ps + {p})
  {
    var more := ps + {p};
    forall q {:trigger SyncedAt(host, alias, now, fs', b, full, q)}
      | q in more
      ensures SyncedAt(host, alias, now, fs', b, full, q) {
      if q != p { SyncedKept(host, alias, now, fs, a, fs', b, full, {p}, q); }
    }
  }

  /** The link rows that the host's links stand for. */
  ghost function LinkRows(host: Host, alias: map<Path, Path>): set<Path> {
    set t | t in alias && t in host && host[t].HostLink? :: alias[t]
  }

  /** One walked entry. An entry whose metadata cannot be read is a failure and does not count as seen. */
  method SyncEntry(c: Connection, u: nat, host: Host, alias: map<Path, Path>, full: bool, p: Path, now: int,
                   rep: Report, seen: set<Path>, ghost undos: Undos, ghost fs0: Files, ghost a: Chunks)
    returns (rep': Report, seen': set<Path>)
    requires Covered(c, undos, fs0, a, u) && p in host
    modifies c`fs, c`chunks, c`blobs, c`dirty, c`logical, c`undos
    ensures Covered(c, undos, fs0, a, u)
    ensures OnlyRows(old(c.fs), c.fs, {p}) && OnlyLive(old(c.chunks), c.chunks, {p})
    ensures rep'.failed >= rep.failed && Midway(host, now, c.rules, old(c.fs), c.fs)
    ensures Tallied(host, alias, full, c.rules, old(c.fs), c.fs, p, rep, rep')
    ensures (rep'.failed == rep.failed ==> SyncedAt(host, alias, now, c.fs, c.chunks, full, p))
    ensures c.rules == [] && ReadableAt(host, p) ==> rep'.failed == rep.failed
    ensures seen <= seen' <= seen + {p} + LinkRows(host, alias) && old(c.fs).Keys <= c.fs.Keys
    ensures SeenAt(host, alias, seen', p)
  {
    rep', seen' := rep, seen;
    MidwaySelf(host, now, c.rules, c.fs);
    NothingOnly(c.fs, c.chunks, p);
    forall s ensures LiveSlotAt(c.chunks, c.chunks, {p}, s) {}
    if Reserved(p) { return; }
    if host[p].Unreadable? { rep' := rep.(failed := rep.failed + 1); return; }
    if host[p].HostLink? && p in alias { seen' := seen + {alias[p]}; return; }
    seen' := seen + {p};
    rep' := SyncPresent(c, u, host, alias, full, p, now, rep, undos, fs0, a);
  }

  lemma OnlyMore(fs: Files, a: Chunks, m: Files, b: Chunks, fs': Files, d: Chunks, ps: set<Path>, qs: set<Path>)
    requires OnlyRows(fs, m, ps) && OnlyLive(a, b, ps) && OnlyRows(m, fs', qs) && OnlyLive(b, d, qs)
    ensures OnlyRows(fs, fs', ps + qs) && OnlyLive(a, d, ps + qs)
  {
    forall q ensures SameRowAt(fs, fs', ps + qs, q) { assert SameRowAt(fs, m, ps, q) && SameRowAt(m, fs', qs, q); }
    forall s ensures LiveSlotAt(a, d, ps + qs, s) { assert LiveSlotAt(a, b, ps, s) && LiveSlotAt(b, d, qs, s); }
  }

  lemma OnlyNone(fs: Files, a: Chunks)
    ensures OnlyRows(fs, fs, {}) && OnlyLive(a, a, {})
  {
    forall q ensures SameRowAt(fs, fs, {}, q) {}
    forall s ensures LiveSlotAt(a, a, {}, s) {}
  }

  ghost predicate SeenAt(host: Host, alias: map<Path, Path>, seen: set<Path>, p: Path) {
    p in host ==> Reserved(p) || host[p].Unreadable? || (host[p].HostLink? && p in alias) || p in seen
  }

  ghost predicate Seen(host: Host, alias: map<Path, Path>, seen: set<Path>, ps: set<Path>) {
    forall p {:trigger SeenAt(host, alias, seen, p)} :: p in ps ==> SeenAt(host, alias, seen, p)
  }

  lemma SeenMore(host: Host, alias: map<Path, Path>, was: set<Path>, seen: set<Path>, ps: set<Path>, p: Path)
    requires Seen(host, alias, was, ps) && was <= seen && SeenAt(host, alias, seen, p)
    ensures Seen(host, alias, seen, ps + {p})
  {
    forall q {:trigger SeenAt(host, alias, seen, q)} | q in ps + {p} ensures SeenAt(host, alias, seen, q) {
      assert q != p ==> SeenAt(host, alias, was, q);
    }
  }

  /** Where the walk stands once the paths `ps` are visited. */
  ghost predicate Walked(c: Connection, host: Host, alias: map<Path, Path>, now: int, full: bool, ps: set<Path>,
                         rep: Report, seen: set<Path>,
                         spared: set<Path>, fs: Files, chunks: Chunks)
    reads c
  {
    && OnlyRows(fs, c.fs, ps) && OnlyLive(chunks, c.chunks, ps)
    && spared <= seen <= spared + host.Keys + LinkRows(host, alias) && fs.Keys <= c.fs.Keys
    && (rep.failed == 0 ==> Synced(host, alias, now, c.fs, c.chunks, full, ps)) && Seen(host, alias, seen, ps)
    && Midway(host, now, c.rules, fs, c.fs)
    && (rep.failed > 0 ==> Culprit(host, now, c.rules, fs, host.Keys))
    && (c.rules == [] && AllReadable(host) ==> rep.failed == 0)
  }

  method WalkNext(c: Connection, u: nat, host: Host, alias: map<Path, Path>, full: bool, p: Path, now: int, rep: Report,
                  seen: set<Path>,
                  ghost ps: set<Path>, ghost spared: set<Path>, ghost fs: Files, ghost chunks: Chunks,
                  ghost undos: Undos, ghost fs0: Files, ghost a: Chunks)
    returns (rep': Report, seen': set<Path>)
    requires Covered(c, undos, fs0, a, u) && Walked(c, host, alias, now, full, ps, rep, seen, spared, fs, chunks)
    requires p in host
    modifies c`fs, c`chunks, c`blobs, c`dirty, c`logical, c`undos
    ensures Covered(c, undos, fs0, a, u) && Walked(c, host, alias, now, full, ps + {p}, rep', seen', spared, fs, chunks)
  {
    ghost var m, b := c.fs, c.chunks;
    assert AllReadable(host) ==> ReadableAt(host, p);
    rep', seen' := SyncEntry(c, u, host, alias, full, p, now, rep, seen, undos, fs0, a);
    OnlyMore(fs, chunks, m, b, c.fs, c.chunks, ps, {p});
    SeenMore(host, alias, seen, seen', ps, p);
    MidwayTrans(host, now, c.rules, fs, m, c.fs);
    if rep'.failed == 0 { SyncedMore(host, alias, now, m, b, c.fs, c.chunks, full, ps, p); }
  }

  /** The walk over every host entry, in any order. */
  method SyncWalk(c: Connection, u: nat, host: Host, alias: map<Path, Path>, full: bool, now: int, spared: set<Path>,
                  ghost undos: Undos, ghost fs0: Files, ghost a: Chunks) returns (rep: Report, seen: set<Path>)
    requires Covered(c, undos, fs0, a, u)
    modifies c`fs, c`chunks, c`blobs, c`dirty, c`logical, c`undos
    ensures Covered(c, undos, fs0, a, u)
    ensures Walked(c, host, alias, now, full, host.Keys, rep, seen, spared, old(c.fs), old(c.chunks))
  {
    var todo, done: set<Path> := host.Keys, {};
    rep, seen := Report(0, 0, 0, 0, 0), spared;
    OnlyNone(c.fs, c.chunks);
    MidwaySelf(host, now, c.rules, c.fs);
    while todo != {}
      invariant done + todo == host.Keys && Covered(c, undos, fs0, a, u)
      invariant Walked(c, host, alias, now, full, done, rep, seen, spared, old(c.fs), old(c.chunks))
      decreases |todo|
    {
      var p :| p in todo;
      rep, seen := WalkNext(c, u, host, alias, full, p, now, rep, seen, done, spared, old(c.fs), old(c.chunks), undos,
                            fs0, a);
      todo, done := todo - {p}, done + {p};
    }
    assert done == host.Keys;
  }

  /** Delete the rows the walk did not see, each captured first. The first refused one ends the sync. */
  method DeleteGone(c: Connection, u: nat, gone: set<Path>, ghost undos: Undos, ghost fs0: Files, ghost a: Chunks)
    returns (ok: bool, ghost done: set<Path>)
    requires Covered(c, undos, fs0, a, u)
    modifies c`fs, c`chunks, c`blobs, c`dirty, c`logical, c`undos
    ensures Covered(c, undos, fs0, a, u)
    ensures OnlyRows(old(c.fs), c.fs, gone) && OnlyLive(old(c.chunks), c.chunks, gone)
    ensures ok <==> forall p {:trigger p in gone} :: p in gone ==> !Protected(c.rules, p)
    ensures c.fs == old(c.fs) - done && (ok ==> done == gone)
    ensures forall p {:trigger p in done} :: p in done ==> !Protected(c.rules, p)
  {
    var todo := gone;
    done := {};
    OnlyNone(c.fs, c.chunks);
    assert c.fs - {} == c.fs;
    while todo != {}
      invariant done + todo == gone && Covered(c, undos, fs0, a, u)
      invariant OnlyRows(old(c.fs), c.fs, done) && OnlyLive(old(c.chunks), c.chunks, done)
      invariant c.fs == old(c.fs) - done
      invariant forall p {:trigger p in done} :: p in done ==> !Protected(c.rules, p)
      decreases |todo|
    {
      var p :| p in todo;
      ghost var fs, chunks, before := c.fs, c.chunks, c.undos;
      ok := DeleteLogged(c, u, {p}, fs0, a);
      OtherRecordsMore(undos, before, c.undos, u);
      OnlyGone(old(c.fs), old(c.chunks), fs, chunks, c.fs, c.chunks, done, p, gone);
      if !ok { assert p in gone; return; }
      todo, done := todo - {p}, done + {p};
    }
    assert done == gone;
    ok := true;
  }

  lemma OnlyGone(fs: Files, a: Chunks, m: Files, b: Chunks, fs': Files, d: Chunks, done: set<Path>, p: Path,
                 gone: set<Path>)
    requires OnlyRows(fs, m, done) && OnlyLive(a, b, done) && OnlyLive(b, d, {p}) && (fs' == m || fs' == m - {p})
    requires done + {p} <= gone
    ensures OnlyRows(fs, fs', done + {p}) && OnlyLive(a, d, done + {p})
    ensures OnlyRows(fs, fs', gone) && OnlyLive(a, d, gone)
  {
    var more := done + {p};
    forall q ensures SameRowAt(fs, fs', more, q) && SameRowAt(fs, fs', gone, q) { assert SameRowAt(fs, m, done, q); }
    forall s ensures LiveSlotAt(a, d, more, s) && LiveSlotAt(a, d, gone, s) {
      assert LiveSlotAt(a, b, done, s) && LiveSlotAt(b, d, {p}, s);
    }
  }

  /** The link rows a sync keeps although the walk does not see them: a real entry holds their translated
      path. */
  function Spared(fs: Files, alias: map<Path, Path>): set<Path> {
    set t | t in alias && alias[t] in fs && fs[alias[t]].kind == Symlink && t in fs && fs[t].kind != Symlink :: alias[t]
  }

  /** The live tree mirrors the host: every host path shows what the host has, and no row is left that the
      host does not have, links kept under their own path aside. */
  ghost predicate MirrorsTree(host: Host, alias: map<Path, Path>, now: int, fs0: Files, fs: Files, chunks: Chunks,
                              full: bool) {
    && Synced(host, alias, now, fs, chunks, full, host.Keys)
    && (forall p {:trigger p in fs} :: p in fs ==>
      p in host || Reserved(p) || Shadowed(fs0, alias, p) || StandsFor(host, alias, p))
    && forall p {:trigger Shadowed(fs0, alias, p)} :: Shadowed(fs0, alias, p) ==> p in fs
  }

  /** The link row `p` was there with another kind of row at its translated path. */
  ghost predicate Shadowed(fs0: Files, alias: map<Path, Path>, p: Path) {
    && p in fs0 && fs0[p].kind == Symlink
    && exists t :: t in alias && alias[t] == p && t in fs0 && fs0[t].kind != Symlink
  }

  /** A link of the host stands for the row `p`. */
  ghost predicate StandsFor(host: Host, alias: map<Path, Path>, p: Path) {
    exists t :: t in alias && alias[t] == p && t in host && host[t].HostLink?
  }

  /** A protected row that the walk has no entry for. */
  ghost predicate KeptThoughGone(host: Host, alias: map<Path, Path>, rules: seq<Rule>, fs: Files, q: Path) {
    && q in fs && !Reserved(q) && Protected(rules, q)
    && (q !in host || host[q].Unreadable? || (host[q].HostLink? && q in alias))
  }

  /** Why a sync of the whole tree failed, or could not write something. */
  ghost predicate TreeFailures(host: Host, alias: map<Path, Path>, now: int, rules: seq<Rule>, fs0: Files,
                               r: Result<Report>) {
    match r
    case Ok(rep) => rep.failed > 0 ==> Culprit(host, now, rules, fs0, host.Keys)
    case Err(_) =>
      exists q {:trigger KeptThoughGone(host, alias, rules, fs0, q)} :: KeptThoughGone(host, alias, rules, fs0, q)
  }

  /** The walk and the deletions of a sync of the whole tree. */
  method SyncCompared(c: Connection, u: nat, host: Host, alias: map<Path, Path>, full: bool, now: int,
                      ghost undos: Undos, ghost a: Chunks)
    returns (r: Result<Report>)
    requires Covered(c, undos, c.fs, a, u)
    modifies c`fs, c`chunks, c`blobs, c`dirty, c`logical, c`undos
    ensures Covered(c, undos, old(c.fs), a, u)
    ensures r.Ok? && r.value.failed == 0 ==> MirrorsTree(host, alias, now, old(c.fs), c.fs, c.chunks, full)
    ensures c.rules == [] ==> r.Ok? && (AllReadable(host) ==> r.value.failed == 0)
    ensures TreeFailures(host, alias, now, old(c.rules), old(c.fs), r)
    ensures Midway(host, now, old(c.rules), old(c.fs), c.fs)
  {
    ghost var fs0 := c.fs;
    var db, spared := c.fs.Keys, Spared(c.fs, alias);
    var rep, seen := SyncWalk(c, u, host, alias, full, now, spared, undos, fs0, a);
    var gone := set p | p in db && !Reserved(p) && p !in seen;
    ghost var fs, chunks := c.fs, c.chunks;
    ghost var went;
    var ok;
    ok, went := DeleteGone(c, u, gone, undos, fs0, a);
    MidwayLess(host, now, c.rules, fs, went);
    MidwayTrans(host, now, c.rules, fs0, fs, c.fs);
    if !ok {
      ghost var q :| q in gone && Protected(c.rules, q);
      assert SeenAt(host, alias, seen, q);
      assert KeptThoughGone(host, alias, c.rules, fs0, q);
      return Err(Refusal);
    }
    if rep.failed == 0 {
      GoneMirrors(host, alias, now, fs0, fs, chunks, c.chunks, full, seen, gone);
    }
    r := Ok(rep.(deleted := |gone|));
  }

  /** A sync of the whole tree. A refused deletion stops it half way, with what was done so far covered by the
      record. A sync without failures leaves the live tree mirroring the host. */
  method SyncTree(c: Connection, u: nat, host: Host, alias: map<Path, Path>, full: bool, now: int)
    returns (r: Result<Report>, ghost fs0: Files, ghost done: set<Path>)
    requires Sound(c) && u in c.undos && c.undos[u] == map[]
    modifies c`fs, c`chunks, c`blobs, c`dirty, c`logical, c`undos
    ensures Sound(c) && done <= old(c.dirty) && c.dirty == old(c.dirty) - done
    ensures Final(old(c.fs), fs0, old(c.chunks), done)
    ensures r.Ok? || c.dirty == {} ==> Covered(c, old(c.undos), fs0, old(c.chunks), u)
    ensures c.dirty != {} ==> c.fs == fs0 && c.chunks == old(c.chunks) && c.undos == old(c.undos)
    ensures r.Ok? && r.value.failed == 0 ==> MirrorsTree(host, alias, now, fs0, c.fs, c.chunks, full)
    ensures c.rules == [] && old(c.dirty) == {} ==> r.Ok? && (AllReadable(host) ==> r.value.failed == 0)
    ensures r.Ok? || old(c.dirty) == {} ==> TreeFailures(host, alias, now, old(c.rules), fs0, r)
    ensures Midway(host, now, old(c.rules), fs0, c.fs)
  {
    var f;
    f, done := FinalizeDirty(c);
    fs0 := c.fs;
    MidwaySelf(host, now, c.rules, fs0);
    if c.dirty == {} { BeginCovered(c, u); }
    if f.Err? { return Err(f.error), fs0, done; }
    r := SyncCompared(c, u, host, alias, full, now, c.undos, c.chunks);
  }

  lemma GoneMirrors(host: Host, alias: map<Path, Path>, now: int, fs0: Files, fs: Files, a: Chunks, b: Chunks,
                    full: bool, seen: set<Path>, gone: set<Path>)
    requires Synced(host, alias, now, fs, a, full, host.Keys) && OnlyRows(fs0, fs, host.Keys)
    requires OnlyRows(fs, fs - gone, gone) && OnlyLive(a, b, gone)
    requires gone == set p | p in fs0.Keys && !Reserved(p) && p !in seen
    requires Spared(fs0, alias) <= seen <= Spared(fs0, alias) + host.Keys + LinkRows(host, alias)
    requires fs0.Keys <= fs.Keys && Seen(host, alias, seen, host.Keys)
    ensures MirrorsTree(host, alias, now, fs0, fs - gone, b, full)
  {
    var f := fs - gone;
    forall p {:trigger SyncedAt(host, alias, now, f, b, full, p)}
      | p in host.Keys
      ensures SyncedAt(host, alias, now, f, b, full, p) {
      assert SeenAt(host, alias, seen, p) && SyncedAt(host, alias, now, fs, a, full, p);
      if p !in gone { SyncedKept(host, alias, now, fs, a, f, b, full, gone, p); }
    }
    forall p {:trigger p in f} | p in f
      ensures p in host || Reserved(p) || Shadowed(fs0, alias, p) || StandsFor(host, alias, p)
    {
      assert SameRowAt(fs0, fs, host.Keys, p);
      if p in Spared(fs0, alias) {
        var t :| t in alias && alias[t] == p && t in fs0 && fs0[t].kind != Symlink;
      }
    }
    forall p {:trigger Shadowed(fs0, alias, p)} | Shadowed(fs0, alias, p) ensures p in f {
      var t :| t in alias && alias[t] == p && t in fs0 && fs0[t].kind != Symlink;
      assert p in Spared(fs0, alias);
    }
  }
}
