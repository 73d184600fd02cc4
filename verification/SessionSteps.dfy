/** The commands of a session as steps of the store's own machine: a sync is a run of captures, whole writes and
    removals, a rollback or rewind a run of applied records. So what holds of every run of the store holds of
    every session. */
module SessionSteps {
  import opened Tables
  import opened Trees
  import opened Worlds
  import opened Rewinds

  lemma Joined(w: World, xs: seq<Op>, ys: seq<Op>)
    requires Legal(w, xs) && Legal(Run(w, xs), ys)
    ensures Legal(w, xs + ys) && Run(w, xs + ys) == Run(Run(w, xs), ys)
  {
    Worlds.SplitRun(w, xs + ys, |xs|);
    assert (xs + ys)[..|xs|] == xs && (xs + ys)[|xs|..] == ys;
  }

  lemma OneStep(w: World, op: Op)
    requires Enabled(w, op)
    ensures Legal(w, [op]) && Run(w, [op]) == Step(w, op)
  {
    assert [op][1..] == [];
    assert Legal(Step(w, op), []);
  }

  // ------------------------------------------------------------------ captures

  /** The record `r` of the tree `t` at the paths `ps`. */
  ghost predicate CapturedAt(r: Record, t: Tree, ps: set<Path>, p: Path) {
    (p in r <==> p in ps) && (p in r ==> r[p] == At(t, p))
  }

  lemma {:induction false} CaptureSteps(w: World, id: nat, ps: set<Path>) returns (ops: seq<Op>, r: Record)
    requires id !in w.undos && w.dirty == {}
    ensures Legal(w, ops) && Run(w, ops) == w.(undos := w.undos[id := r])
    ensures forall p {:trigger CapturedAt(r, w.live, ps, p)} :: CapturedAt(r, w.live, ps, p)
    decreases |ps|
  {
    if ps == {} {
      ops, r := [UndoBegin(id)], map[];
      OneStep(w, UndoBegin(id));
    } else {
      var q :| q in ps;
      var less, m := CaptureSteps(w, id, ps - {q});
      assert CapturedAt(m, w.live, ps - {q}, q);
      r := m[q := At(w.live, q)];
      ops := less + [UndoCapture(id, q)];
      var v := Run(w, less);
      OneStep(v, UndoCapture(id, q));
      Joined(w, less, [UndoCapture(id, q)]);
      assert v.undos[id := r] == w.undos[id := r];
      forall p ensures CapturedAt(r, w.live, ps, p) { assert CapturedAt(m, w.live, ps - {q}, p); }
    }
  }

  // ------------------------------------------------------------------ writes and deletions

  ghost predicate WrittenAt(t: Tree, after: Tree, now: Tree, ps: set<Path>, p: Path) {
    At(now, p) == if p in ps then At(after, p) else At(t, p)
  }

  /** Paths brought to what the exact tree `after` has there, one by one. */
  lemma {:induction false} WriteSteps(w: World, after: Tree, ps: set<Path>) returns (ops: seq<Op>, now: Tree)
    requires w.dirty == {} && forall p {:trigger TreeExactAt(after, p)} :: TreeExactAt(after, p)
    ensures Legal(w, ops) && Run(w, ops) == w.(live := now)
    ensures forall p {:trigger WrittenAt(w.live, after, now, ps, p)} :: WrittenAt(w.live, after, now, ps, p)
    decreases |ps|
  {
    if ps == {} {
      ops, now := [], w.live;
    } else {
      var q :| q in ps;
      var less, m := WriteSteps(w, after, ps - {q});
      var op := if q in after then Put(q, after[q]) else Remove(q);
      assert TreeExactAt(after, q);
      now := if q in after then m[q := after[q]] else m - {q};
      ops := less + [op];
      OneStep(Run(w, less), op);
      Joined(w, less, [op]);
      forall p ensures WrittenAt(w.live, after, now, ps, p) { assert WrittenAt(w.live, after, m, ps - {q}, p); }
    }
  }

  // ------------------------------------------------------------------ a sync

  /** A sync that leaves the exact tree `after` under the record `r` is a run of captures, writes and
      deletions. */
  lemma SyncSteps(w: World, id: nat, r: Record, after: Tree) returns (ops: seq<Op>)
    requires id !in w.undos && w.dirty == {} && Covers(r, w.live, after)
    requires forall p {:trigger TreeExactAt(after, p)} :: TreeExactAt(after, p)
    ensures Legal(w, ops) && Run(w, ops) == w.(live := after, undos := w.undos[id := r])
  {
    var captures, record := CaptureSteps(w, id, r.Keys);
    forall p {:trigger record[p]} | p in record ensures p in r && record[p] == r[p] {
      assert CapturedAt(record, w.live, r.Keys, p) && CoversAt(r, w.live, after, p);
    }
    forall p | p in r ensures p in record { assert CapturedAt(record, w.live, r.Keys, p); }
    assert record == r;
    var v := Run(w, captures);
    var writes, now := WriteSteps(v, after, r.Keys);
    forall p ensures At(now, p) == At(after, p) {
      assert WrittenAt(v.live, after, now, r.Keys, p) && CoversAt(r, w.live, after, p);
    }
    SameTree(now, after);
    ops := captures + writes;
    Joined(w, captures, writes);
  }

  // ------------------------------------------------------------------ a rewind

  /** Applying the records `u..top` newest first is a run of applied records. */
  lemma {:induction false} RewindSteps(w: World, u: nat, top: nat) returns (ops: seq<Op>)
    requires w.dirty == {}
    ensures Legal(w, ops) && Run(w, ops) == w.(live := Rewound(w.live, w.undos, u, top))
    decreases top + 1 - u
  {
    if u > top {
      ops := [];
    } else {
      ops := RewindSteps(w, u + 1, top);
      if u in w.undos {
        OneStep(Run(w, ops), UndoApply(u));
        Joined(w, ops, [UndoApply(u)]);
        ops := ops + [UndoApply(u)];
      }
    }
  }

  // ------------------------------------------------------------------ a command and a history

  ghost function WorldOf(s: State, snaps: map<nat, Tree>): World {
    World(s.tree, {}, snaps, s.log)
  }

  ghost predicate TreeExact(t: Tree) {
    forall p {:trigger TreeExactAt(t, p)} :: TreeExactAt(t, p)
  }

  /** What a command's sync left is exact. */
  ghost predicate ExactCommand(c: Command) {
    match c
    case Kept(_, after) => TreeExact(after)
    case RolledBack(_, during) => TreeExact(during)
    case Refused(_, during) => TreeExact(during)
    case Rewind(_) => true
  }

  lemma CommandSteps(s: State, snaps: map<nat, Tree>, c: Command) returns (ops: seq<Op>)
    requires CanRun(s, c) && ExactCommand(c) && s.top + 1 !in s.log
    ensures Legal(WorldOf(s, snaps), ops) && Run(WorldOf(s, snaps), ops) == WorldOf(Next(s, c), snaps)
  {
    var w, u := WorldOf(s, snaps), s.top + 1;
    match c
    case Kept(r, after) => ops := SyncSteps(w, u, r, after);
    case RolledBack(r, during) =>
      ops := SyncSteps(w, u, r, during);
      OneStep(Run(w, ops), UndoApply(u));
      Joined(w, ops, [UndoApply(u)]);
      ops := ops + [UndoApply(u)];
    case Refused(r, during) =>
      ops := SyncSteps(w, u, r, during);
      var v := Run(w, ops);
      OneStep(v, UndoApply(u));
      OneStep(Step(v, UndoApply(u)), UndoDelete(u));
      Joined(w, ops, [UndoApply(u)]);
      Joined(w, ops + [UndoApply(u)], [UndoDelete(u)]);
      assert s.log[u := r] - {u} == s.log;
      ops := ops + [UndoApply(u)] + [UndoDelete(u)];
    case Rewind(to) => ops := RewindSteps(w, to, s.top);
  }

  /** Every command of the history left exact files. */
  ghost predicate ExactHistory(cs: seq<Command>) {
    forall i {:trigger cs[i]} :: 0 <= i < |cs| ==> ExactCommand(cs[i])
  }

  lemma ExactMore(cs: seq<Command>, c: Command)
    requires ExactHistory(cs) && ExactCommand(c)
    ensures ExactHistory(cs + [c])
  {
    var more := cs + [c];
    forall i {:trigger more[i]} | 0 <= i < |more| ensures ExactCommand(more[i]) {
      if i < |cs| { assert more[i] == cs[i]; }
    }
  }

  /** A whole history of commands and rewinds is one run of the store. */
  lemma {:induction false} HistorySteps(s: State, snaps: map<nat, Tree>, cs: seq<Command>) returns (ops: seq<Op>)
    requires CanRunAll(s, cs) && ExactHistory(cs) && IsNewest(s.log.Keys, s.top)
    ensures Legal(WorldOf(s, snaps), ops) && Run(WorldOf(s, snaps), ops) == WorldOf(After(s, cs), snaps)
    decreases |cs|
  {
    if cs == [] {
      ops := [];
    } else {
      var next := Next(s, cs[0]);
      var first := CommandSteps(s, snaps, cs[0]);
      assert IsNewest(next.log.Keys, next.top);
      var rest := HistorySteps(next, snaps, cs[1..]);
      Joined(WorldOf(s, snaps), first, rest);
      ops := first + rest;
    }
  }
}
