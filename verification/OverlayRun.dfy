/** An overlay in use: every operation as one object's method, with the states it went through and the steps it
    took recorded as a ghost history, so that what is proved of every run holds of every sequence of calls. */
module OverlayRuns {
  import opened Tables
  import opened Chunking
  import opened Policy
  import opened Views
  import opened Read
  import opened Store
  import opened OverlayNames
  import opened Overlays
  import opened OverlayFiles
  import opened OverlayWrites
  import opened OverlayLayers

  /** The row of a parent directory that a write creates. */
  function ParentRow(now: int): Row {
    NodeRow(Dir, 493, now, 0, None)
  }

  class OverlayRun {
    const o: Overlay
    ghost var states: seq<Layers>
    ghost var ops: seq<LayerOp>
    /** Whether the counts were exact at the start. */
    ghost const exact: bool

    /** The overlay is where the recorded run leads. Its counts are exact if they were at the start and no
        step since was lossy. */
    ghost predicate Valid()
      reads this, o, o.delta
    {
      && Usable(o)
      && RunOf(o.base, states, ops) && LayersOk(o.base, states[0].fs, states[0].chunks)
      && states[|states| - 1] == LayersOf(o)
      && (exact && Lossless(states, ops) ==> Sound(o.delta))
    }

    /** An overlay whose Delta files each hold one content, as those of a new one do. */
    constructor (overlay: Overlay)
      requires Usable(overlay) && LayersOk(overlay.base, overlay.delta.fs, overlay.delta.chunks)
      ensures Valid() && o == overlay && ops == [] && states == [LayersOf(overlay)] && exact == Sound(overlay.delta)
    {
      o, ops, exact := overlay, [], Sound(overlay.delta);
      states := [LayersOf(overlay)];
    }

    ghost method Take(op: LayerOp)
      requires Usable(o) && RunOf(o.base, states, ops) && LayersOk(o.base, states[0].fs, states[0].chunks)
      requires StepOf(o.base, states[|states| - 1], LayersOf(o), op)
      requires exact && Lossless(states, ops) && !Lossy(states[|states| - 1], op) ==> Sound(o.delta)
      modifies this`states, this`ops
      ensures Valid() && ops == old(ops) + [op] && states == old(states) + [LayersOf(o)]
    {
      RunOfMore(o.base, states, ops, LayersOf(o), op);
      LosslessMore(states, ops, LayersOf(o), op);
      ops, states := ops + [op], states + [LayersOf(o)];
    }

    /** Whatever was called, an edit of `p` has a content to start from. */
    lemma Start(white: set<Path>, p: Path) returns (s: Bytes)
      requires Valid()
      ensures StartsFrom(o.base, o.delta.fs, o.delta.chunks, white, p, s)
    {
      OkOverRuns(o.base, states, ops, |ops|);
      assert HasStart(o.base, LayersOf(o), white, p);
      s :| StartsFrom(o.base, o.delta.fs, o.delta.chunks, white, p, s);
    }

    // ---------------------------------------------------------------- whole paths

    /** Write a whole file. */
    method Write(p: Path, data: Bytes, mode: nat, mtime: int, now: int) returns (ok: bool)
      requires Valid()
      modifies this, o`white, o.delta`fs, o.delta`chunks, o.delta`blobs, o.delta`logical
      ensures Valid() && ok == o.Allowed(p, |data|)
      ensures ops == if ok
        then old(ops) + [Whole(p, FileRow(mode, mtime, KeptNs(old(o.delta.fs), p), data), ParentRow(now), data)]
        else old(ops)
    {
      ghost var row := FileRow(mode, mtime, KeptNs(o.delta.fs, p), data);
      ok := o.Write(p, data, mode, mtime, now);
      if ok { Take(Whole(p, row, ParentRow(now), data)); }
    }

    /** Create a directory or, with a target, a link. */
    method MakeNode(p: Path, target: Option<string>, now: int) returns (ok: bool)
      requires Valid()
      modifies this, o`white, o.delta`fs, o.delta`chunks, o.delta`blobs, o.delta`logical
      ensures Valid() && ok == !Protected(o.base.rules, p)
      ensures ops == if ok
        then old(ops) + [Whole(p, MadeRow(target, now, KeptNs(old(o.delta.fs), p)), ParentRow(now), [])] else old(ops)
    {
      ghost var row := MadeRow(target, now, KeptNs(o.delta.fs, p));
      ok := o.MakeNode(p, target, now);
      if ok { Take(Whole(p, row, ParentRow(now), [])); }
    }

    /** Remove a path with its subtree. */
    method Remove(p: Path) returns (ok: bool)
      requires Valid()
      modifies this, o`white, o.delta`fs, o.delta`chunks, o.delta`blobs, o.delta`dirty, o.delta`logical
      ensures Valid() && ok == !Protected(o.base.rules, p)
      ensures ops == if ok then old(ops) + [Gone(p)] else old(ops)
    {
      ok := o.Remove(p);
      if ok { Take(Gone(p)); }
    }

    // ---------------------------------------------------------------- ranges

    /** Write a byte range; `s` is the content it starts from. While no step was lossy it fails only when the
        rules refuse it or this step itself is lossy. */
    method WriteRange(p: Path, off: nat, data: Bytes, mtime: int) returns (r: Result<()>, ghost s: Bytes)
      requires Valid()
      modifies this, o`white, o.delta`fs, o.delta`chunks, o.delta`blobs, o.delta`logical
      ensures Valid()
      ensures ops == if r.Ok? && data != [] then old(ops) + [Ranged(p, Splicing(off, data), mtime, s)] else old(ops)
      ensures exact && old(Lossless(states, ops)) && r == Err(Corrupt) ==>
        Lossy(old(LayersOf(o)), Ranged(p, Splicing(off, data), mtime, s))
      ensures r == Err(Refusal) <==> if data == [] then Protected(o.base.rules, p)
        else !o.Allowed(p, Max(SizeAt(o.base, old(o.delta.fs), old(o.white), p), off + |data|))
      ensures r.Ok? || r == Err(Refusal) || r == Err(Corrupt)
    {
      s := Start(Cleared(o.base.fs, o.white, p), p);
      ghost var op := Ranged(p, Splicing(off, data), mtime, s);
      r := WriteRangeLayered(o, p, off, data, mtime, s);
      if r.Ok? && data != [] { Take(op); }
    }

    /** Cut or zero-extend a file; `s` is the content it starts from. While no step was lossy it fails only when
        the rules refuse it or there is no file. */
    method Truncate(p: Path, n: nat, mtime: int) returns (r: Result<()>, ghost s: Bytes)
      requires Valid()
      modifies this, o`white, o.delta`fs, o.delta`chunks, o.delta`blobs, o.delta`logical
      ensures Valid()
      ensures ops == if r.Err? then old(ops)
        else old(ops) + [if n == |s| then Same(p) else Ranged(p, Resizing(n), mtime, s)]
      ensures exact && old(Lossless(states, ops)) ==> r != Err(Corrupt)
      ensures r == Err(Refusal) <==> Protected(o.base.rules, p)
      ensures r == Err(NotFound) <==>
          && !Protected(o.base.rules, p)
          && LookupFile(o.base.fs, old(o.delta.fs), Cleared(o.base.fs, old(o.white), p), p) == Missing
      ensures r != Err(NotAFile)
    {
      s := Start(Cleared(o.base.fs, o.white, p), p);
      ghost var op := if n == |s| then Same(p) else Ranged(p, Resizing(n), mtime, s);
      r := TruncateRangeLayered(o, p, n, mtime, s);
      if r.Ok? { Take(op); }
    }

    // ---------------------------------------------------------------- reads

    /** Read a byte range. Whatever was called before, the file shown has one content `s`, and the read returns
        the asked-for slice of it or fails; while no step was lossy it does not fail. */
    method Read(p: Path, off: nat, len: nat) returns (r: Result<Bytes>, ghost s: Bytes)
      requires Valid()
      ensures r == Err(NotFound) <==> LookupFile(o.base.fs, o.delta.fs, o.white, p) == Missing
      ensures r != Err(NotFound) ==>
        && ViewHolds(o.base, o.delta.fs, o.delta.chunks, o.white, p, s)
        && var start := Min(off, |s|);
          r == if There(o, p in o.delta.fs, p, start, Min(start + len, |s|)) then Ok(Slice(s, off, len))
            else Err(Corrupt)
      ensures exact && Lossless(states, ops) && r != Err(NotFound) ==> r == Ok(Slice(s, off, len))
    {
      s := Start(o.white, p);
      assert LookupFile(o.base.fs, o.delta.fs, o.white, p) != Missing ==>
        ViewHolds(o.base, o.delta.fs, o.delta.chunks, o.white, p, s);
      r := ReadRangeLayered(o, p, off, len);
    }

    /** List a directory. Unless the root was removed, the names are exactly those whose child path resolves. */
    method List(p: Path) returns (names: Option<set<Name>>)
      requires Valid()
      ensures names.None? <==> match Locate(o.base.fs, o.delta.fs, o.white, p)
        case InDelta => o.delta.fs[p].kind != Dir
        case InBase => o.base.fs[p].kind != Dir
        case Missing => true
      ensures Shown(states[0].fs, states[0].white) && RootStays(ops) && names.Some? ==>
        forall n :: n in names.value <==> Listed(o.base.fs, o.delta.fs, o.white, p, n)
    {
      OkOverRuns(o.base, states, ops, |ops|);
      assert ops[..|ops|] == ops;
      names := o.List(p);
    }
  }

  /** A sound Base with canonical files under a Delta in shape, with no rules of its own. */
  ghost predicate Usable(o: Overlay)
    reads o.delta
  {
    && BaseOk(o.base) && BaseCanonical(o.base)
    && Shaped(o.delta) && BlobsDecode(o.delta.dicts, o.delta.blobs) && o.delta.rules == []
  }
}
