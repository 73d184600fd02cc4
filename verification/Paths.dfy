/** The ancestors of a path. */
module Paths {
  import opened Tables

  /** The proper ancestors of `p` below the root. */
  function Above(p: Path): set<Path> {
    set i | 0 < i < |p| :: p[..i]
  }

  lemma AboveIs(p: Path, a: Path)
    ensures a in Above(p) <==> [] < a < p
    ensures a <= p <==> a == [] || a == p || a in Above(p)
  {
    if a <= p { assert a == p[..|a|]; }
    assert p[..|p|] == p;
  }

  lemma NotAbove(p: Path)
    ensures p !in Above(p)
  {
    AboveIs(p, p);
  }

  /** `p` and its ancestors as `rfind('/')` finds them, nearest first, down to the component below the root. */
  method NonRootAncestors(p: Path) returns (up: set<Path>)
    ensures up == Above(p)
  {
    up := {};
    var cur := p;
    while |cur| > 1
      invariant cur <= p
      invariant forall a {:trigger a in up} :: a in up <==> [] < a < p && |a| >= |cur|
      decreases |cur|
    {
      ghost var was := cur;
      cur := cur[..|cur| - 1];
      up := up + {cur};
      forall a ensures a in up <==> [] < a < p && |a| >= |cur| {
        if [] < a < p && |a| == |cur| { assert a == p[..|a|] == cur; }
      }
    }
    forall a ensures a in up <==> a in Above(p) { AboveIs(p, a); }
  }
}
