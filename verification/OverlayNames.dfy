/** Which layer a path of an overlay resolves to: a read-only Base, a writable Delta over it, and whiteouts
    that hide Base subtrees. The overlay's operations compute these functions; what holds of every run is
    proved here. */
module OverlayNames {
  import opened Tables
  import opened Paths

  datatype Layer = InDelta | InBase | Missing

  /** A whiteout on the path or on any ancestor hides it. */
  predicate Hidden(white: set<Path>, p: Path) {
    exists w :: w in white && w <= p
  }

  function Locate(base: Files, delta: Files, white: set<Path>, p: Path): Layer {
    if Hidden(white, p) then Missing else if p in delta then InDelta else if p in base then InBase else Missing
  }

  /** The layer of the regular file at `p`. A Delta row is taken without asking the whiteouts. */
  function LookupFile(base: Files, delta: Files, white: set<Path>, p: Path): Layer {
    if p in delta then (if delta[p].kind == File then InDelta else Missing)
    else if p in base && base[p].kind == File && !Hidden(white, p) then InBase
    else Missing
  }

  // ------------------------------------------------------------------ the two changes

  /** The whiteouts on `p` and its ancestors that a write clears: all but the root's, which is only cleared
      by a write to the root itself. */
  predicate Clears(p: Path, w: Path) {
    w <= p && (w != [] || p == [])
  }

  /** The Base paths that get a whiteout of their own before a write to `p` clears the ones above them. */
  predicate Relocked(base: Files, white: set<Path>, p: Path, b: Path) {
    && b in base
    && ((exists a :: a in white && [] < a < p && a < b && !(p <= b) && !(b <= p))
        || (p in white && p != [] && p < b))
  }

  function Cleared(base: Files, white: set<Path>, p: Path): set<Path> {
    set w | w in white + base.Keys && !Clears(p, w) && (w in white || Relocked(base, white, p, w))
  }

  /** The Delta rows after a write of `row` at `p`: missing parents, the root aside, become directories. */
  function Written(delta: Files, p: Path, row: Row, dir: Row): Files {
    map q | q in delta.Keys + Above(p) + {p} :: if q == p then row else if q in delta then delta[q] else dir
  }

  function Removed(delta: Files, p: Path): Files {
    map q | q in delta && !(p <= q) :: delta[q]
  }

  /** The whiteouts after a removal of `p`: a new one if Base has anything at or below it. */
  function Whited(base: Files, white: set<Path>, p: Path): set<Path> {
    if exists b :: b in base && p <= b then white + {p} else white
  }

  // ------------------------------------------------------------------ the invariant

  ghost predicate ShownAt(delta: Files, white: set<Path>, q: Path) {
    q in delta ==> !Hidden(white, q)
  }

  /** No Delta row is covered by a whiteout, and the root is not whited out. */
  ghost predicate Shown(delta: Files, white: set<Path>) {
    [] !in white && forall q {:trigger ShownAt(delta, white, q)} :: ShownAt(delta, white, q)
  }

  lemma BothPrefix(a: Path, b: Path, q: Path)
    requires a <= q && b <= q
    ensures a <= b || b <= a
  {
    assert a == q[..|a|] && b == q[..|b|];
    if |a| <= |b| { assert q[..|b|][..|a|] == q[..|a|]; } else { assert q[..|a|][..|b|] == q[..|b|]; }
  }

  lemma PrefixTrans(a: Path, b: Path, q: Path)
    requires a <= b && b <= q
    ensures a <= q
  {
  }

  /** A relocked path lies below an old whiteout. */
  lemma RelockedBelow(base: Files, white: set<Path>, p: Path, b: Path)
    requires Relocked(base, white, p, b)
    ensures exists w :: w in white && w <= b
  {
    if p in white && p < b {
      assert p in white && p <= b;
    } else {
      var a :| a in white && [] < a < p && a < b && !(p <= b) && !(b <= p);
      assert a in white && a <= b;
    }
  }

  /** A write never hides what was visible. */
  lemma ClearedHidesNothing(base: Files, white: set<Path>, p: Path, q: Path)
    requires !Hidden(white, q)
    ensures !Hidden(Cleared(base, white, p), q)
  {
    if Hidden(Cleared(base, white, p), q) {
      var w :| w in Cleared(base, white, p) && w <= q;
      if w !in white {
        RelockedBelow(base, white, p, w);
        var v :| v in white && v <= w;
        PrefixTrans(v, w, q);
      }
      assert false;
    }
  }

  /** A write makes its path and all its ancestors visible. */
  lemma ClearedShows(base: Files, white: set<Path>, p: Path, q: Path)
    requires [] !in white && q <= p
    ensures !Hidden(Cleared(base, white, p), q)
  {
    if Hidden(Cleared(base, white, p), q) {
      var w :| w in Cleared(base, white, p) && w <= q;
      PrefixTrans(w, q, p);
      assert false;
    }
  }

  lemma ClearKeepsRoot(base: Files, white: set<Path>, p: Path)
    requires [] !in white
    ensures [] !in Cleared(base, white, p)
  {
    if [] in Cleared(base, white, p) { RelockedBelow(base, white, p, []); assert false; }
  }

  lemma WriteShows(base: Files, delta: Files, white: set<Path>, p: Path, row: Row, dir: Row)
    requires Shown(delta, white)
    ensures Shown(Written(delta, p, row, dir), Cleared(base, white, p))
  {
    var d, w := Written(delta, p, row, dir), Cleared(base, white, p);
    ClearKeepsRoot(base, white, p);
    forall q ensures ShownAt(d, w, q) {
      AboveIs(p, q);
      if q <= p {
        ClearedShows(base, white, p, q);
      } else {
        assert ShownAt(delta, white, q);
        if q in delta { ClearedHidesNothing(base, white, p, q); }
      }
    }
  }

  /** A ranged edit adds the row of `p` alone, without its parents. */
  lemma EditShows(base: Files, delta: Files, white: set<Path>, p: Path, row: Row)
    requires Shown(delta, white)
    ensures Shown(delta[p := row], Cleared(base, white, p))
  {
    var d, w := delta[p := row], Cleared(base, white, p);
    ClearKeepsRoot(base, white, p);
    forall q ensures ShownAt(d, w, q) {
      assert ShownAt(delta, white, q);
      if q == p { ClearedShows(base, white, p, q); } else if q in delta { ClearedHidesNothing(base, white, p, q); }
    }
  }

  lemma RemoveShows(base: Files, delta: Files, white: set<Path>, p: Path)
    requires Shown(delta, white) && p != []
    ensures Shown(Removed(delta, p), Whited(base, white, p))
  {
    forall q ensures ShownAt(Removed(delta, p), Whited(base, white, p), q) { assert ShownAt(delta, white, q); }
  }

  // ------------------------------------------------------------------ every run

  /** A whole-path write, a ranged write or truncate, a removal. */
  datatype NameOp = WriteAt(path: Path, row: Row, dir: Row) | EditAt(path: Path, row: Row) | RemoveAt(path: Path)
  datatype Names = Names(delta: Files, white: set<Path>)

  function NameStep(base: Files, s: Names, op: NameOp): Names {
    match op
    case WriteAt(p, row, dir) => Names(Written(s.delta, p, row, dir), Cleared(base, s.white, p))
    case EditAt(p, row) => Names(s.delta[p := row], Cleared(base, s.white, p))
    case RemoveAt(p) => Names(Removed(s.delta, p), Whited(base, s.white, p))
  }

  function NameRun(base: Files, s: Names, ops: seq<NameOp>): Names
    decreases |ops|
  {
    if ops == [] then s else NameRun(base, NameStep(base, s, ops[0]), ops[1..])
  }

  /** Over every run of whole writes, ranged edits and removals, none of the root, no Delta row is ever covered
      by a whiteout. */
  lemma {:induction false} ShownOverRuns(base: Files, s: Names, ops: seq<NameOp>)
    requires Shown(s.delta, s.white) && RootKept(ops)
    ensures var t := NameRun(base, s, ops); Shown(t.delta, t.white)
    decreases |ops|
  {
    if ops != [] {
      match ops[0] {
        case WriteAt(p, row, dir) => WriteShows(base, s.delta, s.white, p, row, dir);
        case EditAt(p, row) => EditShows(base, s.delta, s.white, p, row);
        case RemoveAt(p) => RemoveShows(base, s.delta, s.white, p);
      }
      ShownOverRuns(base, NameStep(base, s, ops[0]), ops[1..]);
    }
  }

  predicate RootKept(ops: seq<NameOp>) {
    forall i :: 0 <= i < |ops| && ops[i].RemoveAt? ==> ops[i].path != []
  }

  /** Taking Delta rows without asking the whiteouts is right wherever the invariant holds. */
  lemma LookupAgrees(base: Files, delta: Files, white: set<Path>, p: Path)
    requires Shown(delta, white)
    ensures LookupFile(base, delta, white, p) ==
      match Locate(base, delta, white, p)
      case InDelta => if delta[p].kind == File then InDelta else Missing
      case InBase => if base[p].kind == File then InBase else Missing
      case Missing => Missing
  {
    assert ShownAt(delta, white, p);
  }

  // ------------------------------------------------------------------ what one operation changes

  /** Neither above, at nor below. */
  predicate Unrelated(p: Path, q: Path) {
    !(p <= q) && !(q <= p)
  }

  /** A hidden Base path unrelated to a written one stays hidden, whatever whiteout hid it. */
  lemma UnrelatedStaysHidden(base: Files, white: set<Path>, p: Path, q: Path)
    requires q in base && Unrelated(p, q) && Hidden(white, q) && [] !in white
    ensures Hidden(Cleared(base, white, p), q)
  {
    var w :| w in white && w <= q;
    if Clears(p, w) {
      assert [] < w < p && w < q;
      assert Relocked(base, white, p, q);
      assert q in Cleared(base, white, p) && q <= q;
    } else {
      assert w in Cleared(base, white, p) && w <= q;
    }
  }

  /** Clearing whiteouts for `p` leaves every unrelated path where it was. */
  lemma ClearLeavesUnrelated(base: Files, delta: Files, delta': Files, white: set<Path>, p: Path, q: Path)
    requires Shown(delta, white) && Unrelated(p, q) && (q in delta' <==> q in delta)
    ensures Locate(base, delta', Cleared(base, white, p), q) == Locate(base, delta, white, q)
  {
    assert ShownAt(delta, white, q);
    if Hidden(white, q) {
      if q in base { UnrelatedStaysHidden(base, white, p, q); }
    } else {
      ClearedHidesNothing(base, white, p, q);
    }
  }

  /** Every operation on a path leaves every unrelated path where it was. */
  lemma StepLeavesUnrelated(base: Files, s: Names, op: NameOp, q: Path)
    requires Shown(s.delta, s.white) && Unrelated(op.path, q)
    ensures var t := NameStep(base, s, op); Locate(base, t.delta, t.white, q) == Locate(base, s.delta, s.white, q)
  {
    var t := NameStep(base, s, op);
    AboveIs(op.path, q);
    match op
    case RemoveAt(p) => RemoveHidesExactlySubtree(base, s.delta, s.white, p, q);
    case _ => ClearLeavesUnrelated(base, s.delta, t.delta, s.white, op.path, q);
  }

  /** A removal of `p` hides everything at or below it and leaves everything else where it was. */
  lemma RemoveHidesExactlySubtree(base: Files, delta: Files, white: set<Path>, p: Path, q: Path)
    ensures p <= q ==> Locate(base, Removed(delta, p), Whited(base, white, p), q) == Missing
    ensures !(p <= q) ==> Locate(base, Removed(delta, p), Whited(base, white, p), q) == Locate(base, delta, white, q)
  {
    if p <= q && q in base { assert p in Whited(base, white, p) && p <= q; }
    if !(p <= q) {
      assert Hidden(Whited(base, white, p), q) <==> Hidden(white, q);
    }
  }

  /** After a write to `p` the path is served by the Delta, and so is every proper ancestor below the root. */
  lemma WriteShowsPath(base: Files, delta: Files, white: set<Path>, p: Path, row: Row, dir: Row, q: Path)
    requires Shown(delta, white) && q <= p && (q != [] || p == [])
    ensures Locate(base, Written(delta, p, row, dir), Cleared(base, white, p), q) == InDelta
  {
    AboveIs(p, q);
    ClearedShows(base, white, p, q);
    assert q == p || q in Above(p);
  }

  /** Which hidden Base paths below a written `p` stay hidden: exactly those that were hidden by a whiteout on
      `p` itself or below it. One hidden only by a whiteout above `p` is revived. */
  lemma HiddenBelowIff(base: Files, white: set<Path>, p: Path, d: Path)
    requires d in base && p < d && p != [] && [] !in white
    ensures Hidden(Cleared(base, white, p), d) <==> exists w :: w in white && p <= w && w <= d
  {
    if w :| w in white && p <= w && w <= d {
      if w == p {
        assert Relocked(base, white, p, d);
        assert d in Cleared(base, white, p) && d <= d;
      } else {
        assert w in Cleared(base, white, p) && w <= d;
      }
    }
    if Hidden(Cleared(base, white, p), d) {
      var w :| w in Cleared(base, white, p) && w <= d;
      BothPrefix(w, p, d);
      if w in white {
        assert p <= w;
      } else if p in white {
        assert p in white && p <= p && p <= d;
      } else {
        assert false;
      }
    }
  }

  /** Revival happens: a Base directory removed above, one of its files written, its neighbour below that
      file's path comes back. */
  lemma RevivedBelow(a: Path, p: Path, d: Path, row: Row)
    requires [] < a < p && p < d
    ensures var base: Files := map[a := row, p := row, d := row];
      var white := Whited(base, {}, a);
      && Locate(base, map[], white, d) == Missing
      && Locate(base, Written(map[], p, row, row), Cleared(base, white, p), d) == InBase
  {
    var base: Files := map[a := row, p := row, d := row];
    var white := Whited(base, {}, a);
    assert a in base && a <= a;
    assert white == {a};
    assert a in white && a <= d;
    HiddenBelowIff(base, white, p, d);
    AboveIs(p, d);
  }

  // ------------------------------------------------------------------ the root whiteout

  /** A whiteout on the root hides everything, and no write to another path ever clears it. */
  lemma RootWhiteoutStays(base: Files, delta: Files, white: set<Path>, p: Path, row: Row, dir: Row, q: Path)
    requires [] in white && p != []
    ensures [] in Cleared(base, white, p)
    ensures Locate(base, Written(delta, p, row, dir), Cleared(base, white, p), q) == Missing
  {
    assert [] in Cleared(base, white, p) && [] <= q;
  }

  /** A write to the root itself clears it and locks nothing: every Base path without a whiteout of its own
      is back. */
  lemma RootWriteRevives(base: Files, white: set<Path>, q: Path)
    ensures Hidden(Cleared(base, white, []), q) <==> Hidden(white - {[]}, q)
  {
    assert Cleared(base, white, []) == white - {[]};
  }

  // ------------------------------------------------------------------ listing

  function Child(p: Path, n: Name): Path { p + [n] }

  /** The names that resolve below `p`. */
  ghost predicate Listed(base: Files, delta: Files, white: set<Path>, p: Path, n: Name) {
    Locate(base, delta, white, Child(p, n)) != Missing
  }

  lemma PrefixOfChild(w: Path, p: Path, n: Name)
    ensures w <= Child(p, n) <==> w <= p || w == Child(p, n)
  {
    var c := Child(p, n);
    if w <= c && |w| <= |p| { assert w == c[..|w|] == p[..|w|]; }
    if w <= p { assert w == p[..|w|] == c[..|w|]; }
  }

  /** Under a visible directory only a whiteout on the child itself can hide a child. */
  lemma ChildHidden(white: set<Path>, p: Path, n: Name)
    requires !Hidden(white, p)
    ensures Hidden(white, Child(p, n)) <==> Child(p, n) in white
  {
    forall w | w in white ensures w <= Child(p, n) <==> w <= p || w == Child(p, n) { PrefixOfChild(w, p, n); }
  }
}
