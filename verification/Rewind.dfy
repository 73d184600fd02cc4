/** The undo log of a session as a state machine: commands that are kept, rolled back or refused,
    and rewinds that apply a suffix of the records, newest first. */
module Rewinds {
  import opened Tables
  import opened Trees
  import opened Worlds

  type Log = map<nat, Record>

  ghost predicate CoversAt(r: Record, before: Tree, after: Tree, p: Path) {
    if p in r then r[p] == At(before, p) else At(after, p) == At(before, p)
  }

  /** The capture-before-write discipline: every captured path is recorded as it was before the step, and a
      path that was not captured was not changed by it. */
  ghost predicate Covers(r: Record, before: Tree, after: Tree) {
    forall p {:trigger CoversAt(r, before, after, p)} :: CoversAt(r, before, after, p)
  }

  /** Applying a step's record undoes the step. */
  lemma ApplyUndoes(r: Record, before: Tree, after: Tree)
    requires Covers(r, before, after)
    ensures Apply(after, r) == before
  {
    forall p ensures At(Apply(after, r), p) == At(before, p) {
      ApplyAt(after, r, p);
      assert CoversAt(r, before, after, p);
    }
    SameTree(Apply(after, r), before);
  }

  /** The captured rows still describe the state they were taken from. */
  lemma CoversItself(r: Record, before: Tree, after: Tree)
    requires Covers(r, before, after)
    ensures Covers(r, before, before)
  {
    forall p ensures CoversAt(r, before, before, p) {
      assert CoversAt(r, before, after, p);
    }
  }

  // ------------------------------------------------------------------ the change list of a step

  datatype Diff = Diff(created: set<Path>, modified: set<Path>, deleted: set<Path>)

  predicate Differs(a: Row, b: Row) {
    a.kind != b.kind || a.hash != b.hash || a.mode != b.mode || a.link != b.link
  }

  /** `undo_diff`: the record against the live rows. */
  ghost function RecordDiff(r: Record, live: Tree): Diff {
    Diff(set p | p in r && r[p].None? && p in live,
         set p | p in r && r[p].Some? && p in live && Differs(r[p].value.row, live[p].row),
         set p | p in r && r[p].Some? && p !in live)
  }

  /** `snapshot_diff_live`: a full copy of the earlier tree against the live rows. */
  ghost function TreeDiff(before: Tree, live: Tree): Diff {
    Diff(set p | p in live && p !in before,
         set p | p in live && p in before && Differs(before[p].row, live[p].row),
         set p | p in before && p !in live)
  }

  /** The record of the touched paths gives the same change list as a full snapshot would. */
  lemma RecordDiffIsTreeDiff(r: Record, before: Tree, live: Tree)
    requires Covers(r, before, live)
    ensures RecordDiff(r, live) == TreeDiff(before, live)
    ensures forall p :: p in RecordDiff(r, live).created <==> p !in before && p in live
    ensures forall p :: p in RecordDiff(r, live).deleted <==> p in before && p !in live
    ensures forall p :: p in RecordDiff(r, live).modified <==>
      p in before && p in live &&
      !(before[p].row.kind == live[p].row.kind && before[p].row.hash == live[p].row.hash
        && before[p].row.mode == live[p].row.mode && before[p].row.link == live[p].row.link)
  {
    var a, b := RecordDiff(r, live), TreeDiff(before, live);
    forall p
      ensures p in a.created <==> p in b.created
      ensures p in a.modified <==> p in b.modified
      ensures p in a.deleted <==> p in b.deleted
    {
      assert CoversAt(r, before, live, p);
    }
  }

  // ------------------------------------------------------------------ applying a suffix of the log

  /** The records `u..top` applied to `t`, newest first. */
  ghost function Rewound(t: Tree, log: Log, u: nat, top: nat): Tree
    decreases top + 1 - u
  {
    if u > top then t else
    var later := Rewound(t, log, u + 1, top);
    if u in log then Apply(later, log[u]) else later
  }

  /** Some record of `u..top` holds `p`. */
  ghost predicate Touched(log: Log, u: nat, top: nat, p: Path)
    decreases top + 1 - u
  {
    u <= top && ((u in log && p in log[u]) || Touched(log, u + 1, top, p))
  }

  /** What the oldest record of `u..top` that holds `p` has for it. */
  ghost function OldestEntry(log: Log, u: nat, top: nat, p: Path): Option<Entry>
    requires Touched(log, u, top, p)
    decreases top + 1 - u
  {
    if u in log && p in log[u] then log[u][p] else OldestEntry(log, u + 1, top, p)
  }

  /** After a rewind a path is as the oldest applied record has it, or unchanged when none holds it. */
  lemma {:induction false} RewoundAt(t: Tree, log: Log, u: nat, top: nat, p: Path)
    ensures At(Rewound(t, log, u, top), p) == if Touched(log, u, top, p) then OldestEntry(log, u, top, p) else At(t, p)
    decreases top + 1 - u
  {
    if u <= top {
      RewoundAt(t, log, u + 1, top, p);
      if u in log { ApplyAt(Rewound(t, log, u + 1, top), log[u], p); }
    }
  }

  /** When a restore point can be reached from one tree, it is reached from another exactly when that tree
      agrees with it on every path the records do not hold. */
  lemma RewindExactIff(a: Tree, b: Tree, log: Log, u: nat, top: nat, goal: Tree)
    requires Rewound(a, log, u, top) == goal
    ensures Rewound(b, log, u, top) == goal <==> forall p :: !Touched(log, u, top, p) ==> At(b, p) == At(goal, p)
  {
    var g := Rewound(b, log, u, top);
    forall p
      ensures Touched(log, u, top, p) ==> At(g, p) == At(goal, p)
      ensures !Touched(log, u, top, p) ==> At(g, p) == At(b, p)
    {
      RewoundAt(a, log, u, top, p);
      RewoundAt(b, log, u, top, p);
    }
    if forall p :: !Touched(log, u, top, p) ==> At(b, p) == At(goal, p) {
      SameTree(g, goal);
    }
  }

  /** Records later than `v` are records later than an earlier `u`. */
  lemma {:induction false} TouchedLater(log: Log, u: nat, v: nat, top: nat, p: Path)
    requires u <= v && Touched(log, v, top, p)
    ensures Touched(log, u, top, p)
    decreases v - u
  {
    if u < v { TouchedLater(log, u + 1, v, top, p); }
  }

  /** Rewinding to a later point first makes no difference: the kept records are applied again. */
  lemma RewindAfterRewind(t: Tree, log: Log, u: nat, v: nat, top: nat)
    requires u <= v
    ensures Rewound(Rewound(t, log, v, top), log, u, top) == Rewound(t, log, u, top)
  {
    var m := Rewound(t, log, v, top);
    forall p | !Touched(log, u, top, p)
      ensures At(m, p) == At(Rewound(t, log, u, top), p)
    {
      if Touched(log, v, top, p) { TouchedLater(log, u, v, top, p); }
      RewoundAt(t, log, v, top, p);
      RewoundAt(t, log, u, top, p);
    }
    RewindExactIff(t, m, log, u, top, Rewound(t, log, u, top));
  }

  /** A new record on top of the log undoes its own step before the older records are applied. */
  lemma {:induction false} NewRecordOnTop(t: Tree, s: Tree, log: Log, r: Record, u: nat, top: nat)
    requires Apply(s, r) == t && u <= top + 1
    ensures Rewound(s, log[top + 1 := r], u, top + 1) == Rewound(t, log, u, top)
    decreases top + 1 - u
  {
    if u <= top {
      NewRecordOnTop(t, s, log, r, u + 1, top);
    } else {
      assert Rewound(s, log[top + 1 := r], u + 1, top + 1) == s;
    }
  }

  // ------------------------------------------------------------------ runs of a session

  /** The newest id in use, 0 when there is none. */
  ghost predicate IsNewest(ids: set<nat>, n: nat) {
    (forall i :: i in ids ==> i <= n) && (n == 0 || n in ids)
  }

  /** The tree, the log and the newest record id. */
  datatype State = State(tree: Tree, log: Log, top: nat)

  datatype Command =
    | Kept(record: Record, after: Tree)         // synced, or stopped half way; the record is its restore point
    | RolledBack(record: Record, during: Tree)  // failed; its record was applied and kept
    | Refused(record: Record, during: Tree)     // some write was refused; its record was applied and deleted
    | Rewind(to: nat)

  ghost predicate CanRun(s: State, c: Command) {
    match c
    case Kept(r, after) => Covers(r, s.tree, after)
    case RolledBack(r, during) => Covers(r, s.tree, during)
    case Refused(r, during) => Covers(r, s.tree, during)
    case Rewind(u) => u in s.log
  }

  ghost function Next(s: State, c: Command): State
    requires CanRun(s, c)
  {
    match c
    case Kept(r, after) => State(after, s.log[s.top + 1 := r], s.top + 1)
    case RolledBack(r, during) => State(Apply(during, r), s.log[s.top + 1 := r], s.top + 1)
    case Refused(r, during) => s.(tree := Apply(during, r))
    case Rewind(u) => s.(tree := Rewound(s.tree, s.log, u, s.top))
  }

  ghost predicate CanRunAll(s: State, cs: seq<Command>)
    decreases |cs|
  {
    cs == [] || (CanRun(s, cs[0]) && CanRunAll(Next(s, cs[0]), cs[1..]))
  }

  ghost function After(s: State, cs: seq<Command>): State
    requires CanRunAll(s, cs)
    decreases |cs|
  {
    if cs == [] then s else After(Next(s, cs[0]), cs[1..])
  }

  /** Rewinding to `u` from `s` would give `goal`. */
  ghost predicate Restores(s: State, u: nat, goal: Tree) {
    u in s.log && u <= s.top && Rewound(s.tree, s.log, u, s.top) == goal
  }

  /** A command that leaves a record leaves one that undoes it. */
  lemma RecordUndoes(s: State, c: Command)
    requires CanRun(s, c) && !c.Rewind? && !c.Refused?
    ensures Apply(Next(s, c).tree, Next(s, c).log[s.top + 1]) == s.tree
  {
    match c
    case Kept(r, after) => ApplyUndoes(r, s.tree, after);
    case RolledBack(r, during) =>
      ApplyUndoes(r, s.tree, during);
      CoversItself(r, s.tree, during);
      ApplyUndoes(r, s.tree, s.tree);
  }

  /** Every command keeps every restore point, except that a rewind keeps only those up to its target. */
  lemma RestoresKept(s: State, c: Command, u: nat, goal: Tree)
    requires Restores(s, u, goal) && CanRun(s, c) && (c.Rewind? ==> u <= c.to)
    ensures Restores(Next(s, c), u, goal)
  {
    match c
    case Refused(r, during) => ApplyUndoes(r, s.tree, during);
    case Rewind(v) => RewindAfterRewind(s.tree, s.log, u, v, s.top);
    case _ =>
      var n := Next(s, c);
      RecordUndoes(s, c);
      NewRecordOnTop(s.tree, n.tree, s.log, n.log[s.top + 1], u, s.top);
  }

  lemma {:induction false} RestoresKeptOverRuns(s: State, cs: seq<Command>, u: nat, goal: Tree)
    requires Restores(s, u, goal) && CanRunAll(s, cs)
    requires forall i :: 0 <= i < |cs| && cs[i].Rewind? ==> u <= cs[i].to
    ensures Restores(After(s, cs), u, goal)
    decreases |cs|
  {
    if cs != [] {
      RestoresKept(s, cs[0], u, goal);
      RestoresKeptOverRuns(Next(s, cs[0]), cs[1..], u, goal);
    }
  }

  /** The restore-point theorem. A command that leaves a record, followed by any run of commands and rewinds
      that never rewinds below that record: rewinding to it gives exactly the tree it started from. */
  lemma RewindRestores(s: State, c: Command, cs: seq<Command>)
    requires CanRun(s, c) && !c.Rewind? && !c.Refused?
    requires CanRunAll(Next(s, c), cs)
    requires forall i :: 0 <= i < |cs| && cs[i].Rewind? ==> s.top + 1 <= cs[i].to
    ensures var end := After(Next(s, c), cs);
      CanRun(end, Rewind(s.top + 1)) && Next(end, Rewind(s.top + 1)).tree == s.tree
  {
    var n := Next(s, c);
    RecordUndoes(s, c);
    assert Rewound(n.tree, n.log, s.top + 2, s.top + 1) == n.tree;
    RestoresKeptOverRuns(n, cs, s.top + 1, s.tree);
  }

  /** A run in two parts. */
  lemma {:induction false} SplitRun(s: State, cs: seq<Command>, i: nat)
    requires i <= |cs|
    ensures CanRunAll(s, cs) <==> CanRunAll(s, cs[..i]) && CanRunAll(After(s, cs[..i]), cs[i..])
    ensures CanRunAll(s, cs) ==> After(s, cs) == After(After(s, cs[..i]), cs[i..])
    decreases i
  {
    if i == 0 {
      assert cs[..0] == [] && cs[0..] == cs;
    } else {
      assert cs[..i][0] == cs[0] && cs[..i][1..] == cs[1..][..i - 1] && cs[i..] == cs[1..][i - 1..];
      if CanRun(s, cs[0]) { SplitRun(Next(s, cs[0]), cs[1..], i - 1); }
    }
  }

  lemma AfterOneMore(s: State, cs: seq<Command>, c: Command)
    requires CanRunAll(s, cs) && CanRun(After(s, cs), c)
    ensures CanRunAll(s, cs + [c]) && After(s, cs + [c]) == Next(After(s, cs), c)
  {
    SplitRun(s, cs + [c], |cs|);
    assert (cs + [c])[..|cs|] == cs && (cs + [c])[|cs|..] == [c] && [c][1..] == [];
    assert CanRunAll(Next(After(s, cs), c), []);
  }

  /** Command `i` of the run left record `u`, and no later command rewound below it. */
  ghost predicate LeftPoint(s: State, cs: seq<Command>, i: nat, u: nat) {
    && i < |cs| && CanRunAll(s, cs[..i]) && !cs[i].Rewind? && !cs[i].Refused?
    && After(s, cs[..i]).top + 1 == u
    && forall j :: i < j < |cs| && cs[j].Rewind? ==> u <= cs[j].to
  }

  /** Rewinding to a point of the run gives the tree its command started from. */
  lemma PointRestores(s: State, cs: seq<Command>, i: nat, u: nat)
    requires CanRunAll(s, cs) && LeftPoint(s, cs, i, u)
    ensures CanRun(After(s, cs), Rewind(u)) && Next(After(s, cs), Rewind(u)).tree == After(s, cs[..i]).tree
  {
    SplitRun(s, cs, i);
    var b, rest := After(s, cs[..i]), cs[i..];
    assert rest[0] == cs[i] && rest[1..] == cs[i + 1..];
    RewindRestores(b, cs[i], cs[i + 1..]);
  }

  /** What a rewind below a restore point does to it, told from the log and the current tree: the point
      survives exactly when every path that its own suffix of records does not hold, but some record from `v`
      on does, is now as the oldest of those records has it. */
  lemma RewindBelowKeepsPointIff(s: State, u: nat, v: nat, goal: Tree)
    requires Restores(s, u, goal) && v in s.log && v < u
    ensures Restores(Next(s, Rewind(v)), u, goal) <==>
      forall p :: !Touched(s.log, u, s.top, p) && Touched(s.log, v, s.top, p) ==>
        OldestEntry(s.log, v, s.top, p) == At(s.tree, p)
  {
    var b := Next(s, Rewind(v)).tree;
    RewindExactIff(s.tree, b, s.log, u, s.top, goal);
    forall p
      ensures At(b, p) == if Touched(s.log, v, s.top, p) then OldestEntry(s.log, v, s.top, p) else At(s.tree, p)
      ensures !Touched(s.log, u, s.top, p) ==> At(goal, p) == At(s.tree, p)
    {
      RewoundAt(s.tree, s.log, v, s.top, p);
      RewoundAt(s.tree, s.log, u, s.top, p);
    }
  }

  /** The proviso is needed: after a rewind below it, a restore point can be lost. */
  lemma RewindBelowLosesPoint(a: Path, b: Path, e: Entry)
    requires a != b
    ensures var s := State(map[], map[], 0);
      var cs := [Kept(map[a := None], map[a := e]), Kept(map[b := None], map[a := e, b := e]), Rewind(1), Rewind(2)];
      && CanRunAll(s, cs)
      && After(s, cs).tree != After(s, cs[..1]).tree
  {
    var s := State(map[], map[], 0);
    var t1: Tree, t2: Tree := map[a := e], map[a := e, b := e];
    var r1: Record, r2: Record := map[a := None], map[b := None];
    var c1, c2 := Kept(r1, t1), Kept(r2, t2);
    forall p ensures CoversAt(r1, s.tree, t1, p) && CoversAt(r2, t1, t2, p) {}
    var s1 := Next(s, c1);
    var s2 := Next(s1, c2);
    ApplyUndoes(r1, s.tree, t1);
    ApplyUndoes(r2, t1, t2);
    assert Rewound(t2, s2.log, 3, 2) == t2;
    assert Rewound(t2, s2.log, 2, 2) == t1;
    assert Rewound(t2, s2.log, 1, 2) == map[];
    var s3 := Next(s2, Rewind(1));
    assert Rewound(s3.tree, s2.log, 3, 2) == map[];
    assert a !in Rewound(s3.tree, s2.log, 2, 2) by { ApplyAt(map[], r2, a); }
    var cs := [c1, c2, Rewind(1), Rewind(2)];
    assert cs[1..] == [c2, Rewind(1), Rewind(2)] && cs[1..][1..] == [Rewind(1), Rewind(2)];
    assert cs[1..][1..][1..] == [Rewind(2)] && [Rewind(2)][1..] == [];
    var s4 := Next(s3, Rewind(2));
    assert CanRunAll(s4, []);
    assert CanRunAll(s3, [Rewind(2)]) && After(s3, [Rewind(2)]) == s4;
    assert CanRunAll(s2, [Rewind(1), Rewind(2)]) && After(s2, [Rewind(1), Rewind(2)]) == s4;
    assert CanRunAll(s1, cs[1..]) && After(s1, cs[1..]) == s4;
    assert cs[..1] == [c1] && [c1][1..] == [];
    assert After(s, [c1]) == After(s1, []) == s1;
  }
}
