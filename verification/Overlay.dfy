/** The overlay over a read-only Base: name resolution, listing, whole-path writes and removals. */
module Overlays {
  import opened Tables
  import opened Paths
  import opened Chunking
  import opened Trees
  import opened Policy
  import opened Connections
  import opened Views
  import opened Rows
  import opened Store
  import opened OverlayNames

  /** A read-only database. */
  datatype Base = Base(fs: Files, chunks: Chunks, blobs: Blobs, dicts: Dicts, rules: seq<Rule>)

  lemma WrittenIs(fs: Files, p: Path, row: Row, dir: Row)
    ensures WithDirs(fs, Above(p), dir)[p := row] == Written(fs, p, row, dir)
  {
  }

  /** The rules of a Base that apply to a write through the overlay, its quota aside. */
  predicate AllowedBy(rules: seq<Rule>, p: Path, size: nat) {
    && !Protected(rules, p)
    && forall i :: 0 <= i < |rules| && rules[i].MaxFileSize? ==> size <= rules[i].bytes
  }

  /** The rule lets a file of that size be written there. */
  ghost predicate Lets(r: Rule, p: Path, size: nat) {
    match r
    case ReadonlyPrefix(q) => forall rest: Path :: p != q + rest
    case MaxFileSize(bytes) => size <= bytes
    case DiskQuota(_) => true
  }

  lemma AllowedIff(rules: seq<Rule>, p: Path, size: nat)
    ensures AllowedBy(rules, p, size) <==> forall r {:trigger r in rules} :: r in rules ==> Lets(r, p, size)
  {
    ProtectedIff(rules, p);
    if AllowedBy(rules, p, size) {
      forall r | r in rules ensures Lets(r, p, size) {
        if r.ReadonlyPrefix? { assert ReadonlyPrefix(r.prefix) in rules; }
      }
    }
    if forall r {:trigger r in rules} :: r in rules ==> Lets(r, p, size) {
      forall q, rest: Path | ReadonlyPrefix(q) in rules ensures p != q + rest {
        assert Lets(ReadonlyPrefix(q), p, size);
      }
      forall i | 0 <= i < |rules| && rules[i].MaxFileSize? ensures size <= rules[i].bytes {
        assert rules[i] in rules;
      }
    }
  }

  class Overlay {
    const base: Base
    const delta: Connection
    var white: set<Path>

    constructor (b: Base, d: Connection)
      ensures base == b && delta == d && white == {}
    {
      base, delta, white := b, d, {};
    }

    // ---------------------------------------------------------------- resolution

    /** One statement over `p` and each of its ancestors, the root included. */
    method WhitedOut(p: Path) returns (r: bool)
      ensures r == Hidden(white, p)
    {
      var up := NonRootAncestors(p);
      var paths := up + {p, []};
      forall a ensures a in paths <==> a <= p { AboveIs(p, a); }
      r := paths * white != {};
      if r {
        var w :| w in paths * white;
        assert w in white && w <= p;
      } else {
        forall w | w in white ensures !(w <= p) { assert w !in paths * white; }
      }
    }

    method LocatePath(p: Path) returns (r: Layer)
      ensures r == Locate(base.fs, delta.fs, white, p)
    {
      var hidden := WhitedOut(p);
      r := if hidden then Missing else if p in delta.fs then InDelta else if p in base.fs then InBase else Missing;
    }

    // ---------------------------------------------------------------- whiteouts

    /** Make `p` visible for writing: lock the Base paths that only a cleared whiteout hides, then clear the
        whiteouts on `p` and its ancestors. */
    method ClearWhiteoutsFor(p: Path)
      modifies this`white
      ensures white == Cleared(base.fs, old(white), p)
    {
      var up := NonRootAncestors(p);
      var lock := LockBelow(base.fs, p, up, up * white);
      if p in white && p != [] {
        lock := lock + set b | b in base.fs && p < b;
      }
      ghost var w0 := white;
      white := white + lock;
      white := white - {p} - up;
      forall w ensures w in white <==> w in Cleared(base.fs, w0, p) {
        LockedIs(base.fs, w0, p, w);
        AboveIs(p, w);
      }
    }

    // ---------------------------------------------------------------- writes and removals

    /** The rules of the Base that apply to a write through the overlay, its quota aside. */
    predicate Allowed(p: Path, size: nat) {
      AllowedBy(base.rules, p, size)
    }

    /** Write a whole file. It goes to the Delta, with its parent directories. */
    method Write(p: Path, data: Bytes, mode: nat, mtime: int, now: int) returns (ok: bool)
      requires Shaped(delta) && delta.rules == []
      modifies this`white, delta`fs, delta`chunks, delta`blobs, delta`logical
      ensures Shaped(delta) && BlobsKept(delta)
      ensures ok == Allowed(p, |data|)
      ensures !ok ==> Untouched(this)
      ensures ok ==>
        && white == Cleared(base.fs, old(white), p)
        && delta.fs == Written(old(delta.fs), p, FileRow(mode, mtime, KeptNs(old(delta.fs), p), data),
          NodeRow(Dir, 493, now, 0, None))
        && Filled(old(delta.chunks), delta.chunks, p, data, NumChunks(|data|))
      ensures ok ==>
        && p in delta.fs && delta.fs[p].kind == File && delta.fs[p].mode == mode && delta.fs[p].mtime == mtime
        && delta.fs[p].mtimeNs == (if p in old(delta.fs) then old(delta.fs)[p].mtimeNs else 0)
        && delta.fs[p].size == |data| && delta.fs[p].link.None? && delta.fs[p].hash == Some(Sha256(data))
        && ParentsMade(old(delta.fs), delta.fs, p, now)
    {
      ok := Allowed(p, |data|);
      if !ok { return; }
      ClearWhiteoutsFor(p);
      ghost var fs := delta.fs;
      ghost var made;
      ok, made := EnsureParentDirs(delta, p, NodeRow(Dir, 493, now, 0, None));
      NotAbove(p);
      WrittenIs(fs, p, FileRow(mode, mtime, KeptNs(delta.fs, p), data), NodeRow(Dir, 493, now, 0, None));
      ghost var row := FileRow(mode, mtime, KeptNs(delta.fs, p), data);
      ok := PutFile(delta, p, mode, mtime, data);
      WrittenParents(fs, p, row, now);
    }

    /** Create a directory or, with a target, a link. */
    method MakeNode(p: Path, target: Option<string>, now: int) returns (ok: bool)
      requires Shaped(delta) && delta.rules == []
      modifies this`white, delta`fs, delta`chunks, delta`blobs, delta`logical
      ensures Shaped(delta) && BlobsKept(delta)
      ensures ok == !Protected(base.rules, p)
      ensures !ok ==> Untouched(this)
      ensures ok ==>
        && white == Cleared(base.fs, old(white), p)
        && delta.fs ==
          Written(old(delta.fs), p, MadeRow(target, now, KeptNs(old(delta.fs), p)), NodeRow(Dir, 493, now, 0, None))
        && Filled(old(delta.chunks), delta.chunks, p, [], 0)
      ensures ok ==>
        && p in delta.fs && delta.fs[p].kind == (if target.None? then Dir else Symlink) && delta.fs[p].link == target
        && delta.fs[p].mode == (if target.None? then 493 else 511) && delta.fs[p].mtime == now
        && delta.fs[p].mtimeNs == (if p in old(delta.fs) then old(delta.fs)[p].mtimeNs else 0)
        && delta.fs[p].size == 0 && delta.fs[p].hash.None? && ParentsMade(old(delta.fs), delta.fs, p, now)
    {
      ok := !Protected(base.rules, p);
      if !ok { return; }
      ClearWhiteoutsFor(p);
      ghost var fs := delta.fs;
      ghost var made;
      ok, made := EnsureParentDirs(delta, p, NodeRow(Dir, 493, now, 0, None));
      NotAbove(p);
      var row := MadeRow(target, now, KeptNs(delta.fs, p));
      WrittenIs(fs, p, row, NodeRow(Dir, 493, now, 0, None));
      ok := PutNode(delta, p, row.kind, row.mode, now, target);
      WrittenParents(fs, p, row, now);
    }

    /** Remove a path: its Delta subtree goes, and a whiteout hides what Base has there. */
    method Remove(p: Path) returns (ok: bool)
      requires Shaped(delta) && delta.rules == []
      modifies this`white, delta`fs, delta`chunks, delta`blobs, delta`dirty, delta`logical
      ensures Shaped(delta) && BlobsKept(delta)
      ensures ok == !Protected(base.rules, p)
      ensures !ok ==> Untouched(this)
      ensures ok ==> white == Whited(base.fs, old(white), p) && delta.fs == Removed(old(delta.fs), p)
      ensures ok ==> Dropped(old(delta.chunks), delta.chunks, Live, old(delta.fs).Keys - delta.fs.Keys)
    {
      ok := !Protected(base.rules, p);
      if !ok { return; }
      var below := set q | q in delta.fs && p <= q;
      DropPaths(delta, below);
      assert delta.fs == Removed(old(delta.fs), p);
      assert below == old(delta.fs).Keys - delta.fs.Keys;
      if exists b :: b in base.fs && p <= b { white := white + {p}; }
    }

    // ---------------------------------------------------------------- listing

    /** The names of the direct children of a directory, merged across the layers by three queries. */
    method List(p: Path) returns (names: Option<set<Name>>)
      ensures names.None? <==> match Locate(base.fs, delta.fs, white, p)
        case InDelta => delta.fs[p].kind != Dir
        case InBase => base.fs[p].kind != Dir
        case Missing => true
      ensures names.Some? && Shown(delta.fs, white) ==>
        forall n :: n in names.value <==> Listed(base.fs, delta.fs, white, p, n)
    {
      var at := LocatePath(p);
      if at == Missing || (if at == InDelta then delta.fs[p] else base.fs[p]).kind != Dir { return None; }
      var deltaNames := DirectNames(p, delta.fs.Keys);
      var baseNames := DirectNames(p, base.fs.Keys);
      var whiteNames := DirectNames(p, white);
      var up := NonRootAncestors(p);
      forall a | a in up + {p, []} ensures a !in white {
        AboveIs(p, a);
        assert !Hidden(white, p);
      }
      var hideAll := exists a :: a in up + {p, []} && a in white;
      assert !hideAll;
      names := Some(if hideAll then deltaNames else deltaNames + (baseNames - whiteNames));
      if Shown(delta.fs, white) {
        forall n ensures n in names.value <==> Listed(base.fs, delta.fs, white, p, n) {
          ChildHidden(white, p, n);
          assert ShownAt(delta.fs, white, Child(p, n));
        }
      }
    }
  }

  /** Every directory above `p`, the root aside, has a row: the one it had, or a new directory. */
  ghost predicate ParentsMade(fs: Files, fs': Files, p: Path, now: int) {
    forall q {:trigger q in fs'} :: [] < q < p ==>
      && q in fs'
      && if q in fs then fs'[q] == fs[q]
        else fs'[q].kind == Dir && fs'[q].mode == 493 && fs'[q].mtime == now && fs'[q].size == 0 && fs'[q].hash.None?
  }

  lemma WrittenParents(fs: Files, p: Path, row: Row, now: int)
    ensures ParentsMade(fs, Written(fs, p, row, NodeRow(Dir, 493, now, 0, None)), p, now)
  {
    forall q | [] < q < p ensures q in Above(p) && q != p { AboveIs(p, q); }
  }

  function MadeRow(target: Option<string>, now: int, ns: int): Row {
    if target.None? then NodeRow(Dir, 493, now, ns, None) else NodeRow(Symlink, 511, now, ns, target)
  }

  /** The tables and whiteouts are as they were. */
  twostate predicate Untouched(o: Overlay)
    reads o, o.delta
  {
    && o.white == old(o.white) && o.delta.fs == old(o.delta.fs) && o.delta.chunks == old(o.delta.chunks)
    && o.delta.blobs == old(o.delta.blobs) && o.delta.dirty == old(o.delta.dirty)
    && o.delta.logical == old(o.delta.logical)
  }

  /** The last components of the paths one level below `p`. */
  method DirectNames(p: Path, ps: set<Path>) returns (names: set<Name>)
    ensures forall n {:trigger Child(p, n)} :: n in names <==> Child(p, n) in ps
  {
    names := set q | q in ps && p < q && |q| == |p| + 1 :: q[|p|];
    forall n ensures n in names <==> Child(p, n) in ps {
      var c := Child(p, n);
      assert c[|p|] == n && p < c;
      if n in names {
        var q :| q in ps && p < q && |q| == |p| + 1 && q[|p|] == n;
        assert q == c;
      }
    }
  }

  /** Some path of `whited` is above `b`. */
  predicate Under(whited: set<Path>, b: Path) {
    exists a :: a in whited && a < b
  }

  predicate LockAt(base: Files, p: Path, up: set<Path>, whited: set<Path>, b: Path) {
    b in base && !(p <= b) && b !in up && Under(whited, b)
  }

  /** The Base paths below the `whited` ancestors of `p`, those at or below `p` and those above it left out. */
  method LockBelow(base: Files, p: Path, up: set<Path>, whited: set<Path>) returns (lock: set<Path>)
    ensures forall b {:trigger LockAt(base, p, up, whited, b)} :: b in lock <==> LockAt(base, p, up, whited, b)
  {
    lock := {};
    var todo, done: set<Path> := whited, {};
    while todo != {}
      invariant done + todo == whited
      invariant forall b {:trigger LockAt(base, p, up, done, b)} :: b in lock <==> LockAt(base, p, up, done, b)
      decreases |todo|
    {
      var anc :| anc in todo;
      ghost var was, more := lock, done + {anc};
      lock := lock + set b | b in base && anc < b && !(p <= b) && b !in up;
      forall b ensures b in lock <==> LockAt(base, p, up, more, b) {
        assert b in was <==> LockAt(base, p, up, done, b);
        UnderMore(done, anc, b);
      }
      todo, done := todo - {anc}, done + {anc};
    }
  }

  lemma UnderMore(done: set<Path>, anc: Path, b: Path)
    ensures Under(done + {anc}, b) <==> Under(done, b) || anc < b
  {
    if anc < b { assert anc in done + {anc}; }
    if Under(done, b) {
      var a :| a in done && a < b;
      assert a in done + {anc};
    }
  }

  /** What is locked is what `Relocked` says. */
  lemma LockedIs(base: Files, white: set<Path>, p: Path, b: Path)
    ensures Relocked(base, white, p, b) <==>
      LockAt(base, p, Above(p), Above(p) * white, b) || (b in base && p in white && p != [] && p < b)
  {
    AboveIs(p, b);
    if Under(Above(p) * white, b) {
      var a :| a in Above(p) * white && a < b;
      AboveIs(p, a);
      assert a in white && [] < a < p && a < b;
    }
    if a :| a in white && [] < a < p && a < b {
      AboveIs(p, a);
      assert a in Above(p) * white;
    }
  }
}
