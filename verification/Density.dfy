/** Whether a chunk list has gaps, told by its count and its largest index. */
module Density {
  import opened Tables
  import opened Chunking
  import opened UndoRecords

  /** The chunk rows of `p` in the table `o` are exactly `0..n`. */
  ghost predicate InitialRun(chunks: Chunks, o: Owner, p: Path, n: nat) {
    forall i: nat {:trigger Slot(o, p, i)} :: Slot(o, p, i) in chunks <==> i < n
  }

  lemma SameRun(chunks: Chunks, o: Owner, p: Path, m: nat, n: nat)
    requires InitialRun(chunks, o, p, m) && InitialRun(chunks, o, p, n)
    ensures m == n
  {
    var k := Min(m, n);
    assert (Slot(o, p, k) in chunks <==> k < m) && (Slot(o, p, k) in chunks <==> k < n);
  }

  ghost function Below(n: nat): (all: set<nat>)
    ensures |all| == n && forall i: nat {:trigger i in all} :: i in all <==> i < n
  {
    if n == 0 then {} else Below(n - 1) + {n - 1}
  }

  /** A set of indices below `n` has `n` members exactly when it has them all. */
  lemma AllBelow(ix: set<nat>, n: nat)
    requires forall i :: i in ix ==> i < n
    ensures |ix| == n <==> forall i: nat :: i < n ==> i in ix
  {
    var all := Below(n);
    assert ix <= all;
    assert |all| == |ix| + |all - ix| by { assert all == ix + (all - ix); }
    if |ix| == n {
      assert all - ix == {};
      forall i: nat | i < n ensures i in ix { assert i !in all - ix; }
    } else {
      assert all - ix != {};
      var i :| i in all - ix;
    }
  }

  /** No chunk row of the list lacks the one before it. */
  ghost predicate Gapless(chunks: Chunks, o: Owner, p: Path) {
    forall i: nat {:trigger Slot(o, p, i)} :: Slot(o, p, i + 1) in chunks ==> Slot(o, p, i) in chunks
  }

  lemma {:induction false} DownTo(chunks: Chunks, o: Owner, p: Path, i: nat, j: nat)
    requires Gapless(chunks, o, p) && Slot(o, p, j) in chunks && i <= j
    ensures Slot(o, p, i) in chunks
    decreases j - i
  {
    if i < j {
      assert Slot(o, p, j - 1 + 1) in chunks;
      assert Slot(o, p, j - 1) in chunks;
      DownTo(chunks, o, p, i, j - 1);
    }
  }

  /** The list is gap-free from 0 exactly when its count is one more than its largest index. */
  method ChunksAreDense(chunks: Chunks, o: Owner, p: Path) returns (dense: bool, n: nat)
    ensures dense <==> Gapless(chunks, o, p)
    ensures dense ==> InitialRun(chunks, o, p, n)
    ensures (exists m: nat :: InitialRun(chunks, o, p, m)) ==> dense
  {
    var ix := set s | s in chunks && s.owner == o && s.path == p :: s.idx;
    forall i: nat {:trigger Slot(o, p, i)} ensures Slot(o, p, i) in chunks <==> i in ix {
      if Slot(o, p, i) in chunks { assert Slot(o, p, i).idx in ix; }
    }
    n := 0;
    if ix != {} { n := NextId(ix); }
    AllBelow(ix, n);
    dense := |ix| == n;
    if m: nat :| InitialRun(chunks, o, p, m) { RunIsGapless(chunks, o, p, m); }
    if Gapless(chunks, o, p) && ix != {} {
      var last :| last in ix;
      if n > 1 { last := n - 1; }
      assert Slot(o, p, last) in chunks;
      forall i: nat | i < n ensures i in ix { DownTo(chunks, o, p, i, last); assert Slot(o, p, i) in chunks; }
    }
    if dense { RunIsGapless(chunks, o, p, n); }
  }

  lemma RunIsGapless(chunks: Chunks, o: Owner, p: Path, n: nat)
    requires InitialRun(chunks, o, p, n)
    ensures Gapless(chunks, o, p)
  {
    forall i: nat {:trigger Slot(o, p, i)} | Slot(o, p, i + 1) in chunks ensures Slot(o, p, i) in chunks {
      assert Slot(o, p, i + 1) in chunks <==> i + 1 < n;
    }
  }
}
