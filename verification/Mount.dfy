/** The inode table in use: worklist traversals, and the requests that change the table together with the
    rows. */
module Mounts {
  import opened Tables
  import opened Inodes

  // ------------------------------------------------------------------ traversals

  ghost predicate Distinct(s: seq<nat>) {
    forall i, j {:trigger s[i], s[j]} :: 0 <= i < j < |s| ==> s[i] != s[j]
  }

  lemma DistinctMore(s: seq<nat>, c: nat)
    requires Distinct(s) && c !in s
    ensures Distinct(s + [c])
  {
    var t := s + [c];
    forall i, j | 0 <= i < j < |t| ensures t[i] != t[j] { assert t[i] == s[i]; }
  }

  ghost predicate OneName(children: map<Name, nat>) {
    forall m, n {:trigger children[m], children[n]} ::
      m in children && n in children && m != n ==> children[m] != children[n]
  }

  /** No node is a directory's child under two names. */
  lemma NamesDiffer(nodes: Nodes, i: nat)
    requires TreeOk(nodes) && i in nodes
    ensures OneName(nodes[i].children)
  {
    var v := nodes[i].view;
    forall m, n | m in nodes[i].children && n in nodes[i].children && m != n
      ensures nodes[i].children[m] != nodes[i].children[n]
    {
      assert DownOk(nodes, i, m) && DownOk(nodes, i, n);
      assert (v + [m])[|v|] == m && (v + [n])[|v|] == n;
    }
  }

  /** The children of a directory. */
  method ChildSeq(children: map<Name, nat>) returns (out: seq<nat>)
    ensures OneName(children) ==> Distinct(out)
    ensures forall c {:trigger c in out} :: c in out <==> c in children.Values
  {
    out := [];
    var todo := children.Keys;
    ghost var done: set<Name> := {};
    while todo != {}
      invariant done + todo == children.Keys && done !! todo
      invariant OneName(children) ==> Distinct(out)
      invariant forall c {:trigger c in out} :: c in out <==> exists n :: n in done && children[n] == c
      decreases |todo|
    {
      var n :| n in todo;
      var c := children[n];
      if OneName(children) {
        assert c !in out;
        DistinctMore(out, c);
      }
      ghost var was, before := out, done;
      out := out + [c];
      todo, done := todo - {n}, done + {n};
      forall x {:trigger x in out} ensures x in out <==> exists m :: m in done && children[m] == x {
        assert x in out <==> x in was || x == c;
        if x in was {
          var m :| m in before && children[m] == x;
          assert m in done;
        }
        if x == c { assert n in done && children[n] == x; }
      }
    }
  }

  ghost predicate ChildrenIn(nodes: Nodes, out: seq<nat>, k: nat) {
    k < |out| && out[k] in nodes ==>
      forall c {:trigger c in nodes[out[k]].children.Values} :: c in nodes[out[k]].children.Values ==> c in out
  }

  /** Entry `k` was put there by its parent, which is before it and already expanded. */
  ghost predicate FromParent(nodes: Nodes, out: seq<nat>, i: nat, k: nat) {
    0 < k < |out| ==> out[k] in nodes && exists m :: 0 <= m < i && m < k && out[m] == nodes[out[k]].parent
  }

  lemma {:induction false} DistinctBound(s: seq<nat>, all: set<nat>)
    requires Distinct(s) && forall k :: 0 <= k < |s| ==> s[k] in all
    ensures |s| <= |all|
    decreases |s|
  {
    if s != [] {
      var x := s[|s| - 1];
      DistinctBound(s[..|s| - 1], all - {x});
    }
  }

  /** Whatever is put behind the expanded entries is new. */
  lemma ChildIsNew(nodes: Nodes, r: nat, out: seq<nat>, i: nat, c: nat)
    requires TreeOk(nodes) && r in nodes && Distinct(out) && i < |out| && out[0] == r
    requires forall k: nat {:trigger FromParent(nodes, out, i, k)} :: FromParent(nodes, out, i, k)
    requires Within(nodes, r, out[i]) && c in nodes[out[i]].children.Values
    ensures c !in out && Within(nodes, r, c) && nodes[c].parent == out[i]
  {
    var n :| n in nodes[out[i]].children && nodes[out[i]].children[n] == c;
    assert DownOk(nodes, out[i], n);
    WithinDown(nodes, r, out[i], n);
    forall k | 0 <= k < |out| ensures out[k] != c { assert FromParent(nodes, out, i, k); }
  }

  /** Expanding entry `i` keeps what the worklist promises. */
  lemma Expanded(nodes: Nodes, r: nat, out: seq<nat>, i: nat, more: seq<nat>)
    requires TreeOk(nodes) && r in nodes && Distinct(out) && Distinct(more) && i < |out| && out[0] == r
    requires forall k: nat {:trigger FromParent(nodes, out, i, k)} :: FromParent(nodes, out, i, k)
    requires forall k: nat {:trigger ChildrenIn(nodes, out, k)} :: k < i ==> ChildrenIn(nodes, out, k)
    requires forall k {:trigger out[k]} :: 0 <= k < |out| ==> Within(nodes, r, out[k])
    requires out[i] in nodes && forall c {:trigger c in more} :: c in more <==> c in nodes[out[i]].children.Values
    ensures Distinct(out + more)
    ensures forall k: nat {:trigger FromParent(nodes, out + more, i + 1, k)} :: FromParent(nodes, out + more, i + 1, k)
    ensures forall k: nat {:trigger ChildrenIn(nodes, out + more, k)} :: k < i + 1 ==> ChildrenIn(nodes, out + more, k)
    ensures forall k {:trigger (out + more)[k]} :: 0 <= k < |out + more| ==> Within(nodes, r, (out + more)[k])
  {
    var all, next := out + more, i + 1;
    forall c | c in more ensures c !in out && Within(nodes, r, c) && nodes[c].parent == out[i] {
      ChildIsNew(nodes, r, out, i, c);
    }
    forall x, y | 0 <= x < y < |all| ensures all[x] != all[y] {
      if x < |out| <= y { assert all[y] in more && all[x] in out; }
    }
    forall k: nat ensures FromParent(nodes, all, next, k) {
      assert FromParent(nodes, out, i, k);
      if |out| <= k < |all| { assert all[k] in more; assert all[i] == nodes[all[k]].parent; }
      if 0 < k < |out| {
        var m :| 0 <= m < i && m < k && out[m] == nodes[out[k]].parent;
        assert all[m] == nodes[all[k]].parent;
      }
    }
    forall k: nat {:trigger ChildrenIn(nodes, all, k)} | k < i + 1 ensures ChildrenIn(nodes, all, k) {
      assert k < i ==> ChildrenIn(nodes, out, k);
      assert all[k] == out[k];
    }
    forall k {:trigger all[k]} | 0 <= k < |all| ensures Within(nodes, r, all[k]) {
      if k >= |out| { assert all[k] in more; } else { assert all[k] == out[k]; }
    }
  }

  /** `r` and its descendants, parents before children: exactly the nodes at or below its path. */
  method Subtree(nodes: Nodes, r: nat) returns (out: seq<nat>)
    requires TreeOk(nodes) && r in nodes
    ensures Distinct(out) && out != [] && out[0] == r
    ensures forall j {:trigger j in out} :: j in out <==> Within(nodes, r, j)
    ensures forall k: nat {:trigger FromParent(nodes, out, |out|, k)} :: FromParent(nodes, out, |out|, k)
  {
    out := [r];
    var i := 0;
    while i < |out|
      invariant 0 <= i <= |out| && Distinct(out) && out != [] && out[0] == r
      invariant forall k {:trigger out[k]} :: 0 <= k < |out| ==> Within(nodes, r, out[k])
      invariant forall k: nat {:trigger FromParent(nodes, out, i, k)} :: FromParent(nodes, out, i, k)
      invariant forall k: nat {:trigger ChildrenIn(nodes, out, k)} :: k < i ==> ChildrenIn(nodes, out, k)
      decreases |nodes| - i
    {
      DistinctBound(out, nodes.Keys);
      assert Within(nodes, r, out[i]);
      NamesDiffer(nodes, out[i]);
      var more := ChildSeq(nodes[out[i]].children);
      Expanded(nodes, r, out, i, more);
      out := out + more;
      i := i + 1;
    }
    AllCovered(nodes, r, out);
  }

  lemma AllCovered(nodes: Nodes, r: nat, out: seq<nat>)
    requires TreeOk(nodes) && r in out
    requires forall k {:trigger out[k]} :: 0 <= k < |out| ==> Within(nodes, r, out[k])
    requires forall k: nat {:trigger ChildrenIn(nodes, out, k)} :: k < |out| ==> ChildrenIn(nodes, out, k)
    ensures forall j {:trigger j in out} :: j in out <==> Within(nodes, r, j)
  {
    var xs := set x | x in out;
    forall i, name ensures ClosedAt(nodes, xs, i, name) {
      if i in xs && i in nodes && name in nodes[i].children {
        var k :| 0 <= k < |out| && out[k] == i;
        assert ChildrenIn(nodes, out, k);
        assert nodes[i].children[name] in nodes[i].children.Values;
      }
    }
    forall j {:trigger j in out} ensures j in out <==> Within(nodes, r, j) {
      if Within(nodes, r, j) { ClosedCovers(nodes, r, xs, j); }
    }
  }

  // ------------------------------------------------------------------ dropping a subtree

  /** Node `j` once `r` is unlinked and the nodes `gone` are dropped. */
  ghost predicate GoneAt(nodes: Nodes, now: Nodes, r: nat, gone: set<nat>, j: nat)
    requires r in nodes && nodes[r].view != []
  {
    && (j in now <==> j in nodes && j !in gone)
    && (j in now ==> now[j] == if j == nodes[r].parent then Unlinked(nodes[j], Last(nodes[r].view)) else nodes[j])
  }

  ghost predicate ChildQueued(nodes: Nodes, gone: set<nat>, stack: seq<nat>, i: nat, name: Name) {
    i in gone && i in nodes && name in nodes[i].children ==>
      nodes[i].children[name] in gone || nodes[i].children[name] in stack
  }

  ghost predicate Dropping(nodes: Nodes, now: Nodes, r: nat, gone: set<nat>, stack: seq<nat>)
    requires r in nodes && nodes[r].view != []
  {
    && r in gone && (forall j {:trigger GoneAt(nodes, now, r, gone, j)} :: GoneAt(nodes, now, r, gone, j))
    && (forall j {:trigger j in gone} :: j in gone ==> Within(nodes, r, j))
    && (forall j {:trigger j in stack} :: j in stack ==> Within(nodes, r, j))
    && (forall i, name {:trigger ChildQueued(nodes, gone, stack, i, name)} :: ChildQueued(nodes, gone, stack, i, name))
  }

  lemma NotItsParent(nodes: Nodes, r: nat, j: nat)
    requires TreeOk(nodes) && r in nodes && r != ROOT && Within(nodes, r, j)
    ensures j != nodes[r].parent
  {
    assert UpOk(nodes, r);
  }

  lemma DropOne(nodes: Nodes, now: Nodes, r: nat, gone: set<nat>, stack: seq<nat>, rest: seq<nat>, i: nat,
                more: seq<nat>)
    requires TreeOk(nodes) && r in nodes && r != ROOT && nodes[r].view != [] && Dropping(nodes, now, r, gone, stack)
    requires stack == rest + [i] && i in now
    requires (forall c {:trigger c in more} :: c in more <==> c in now[i].children.Values)
    ensures Dropping(nodes, now - {i}, r, gone + {i}, rest + more)
  {
    var n', g, s := now - {i}, gone + {i}, rest + more;
    assert i in stack && GoneAt(nodes, now, r, gone, i);
    NotItsParent(nodes, r, i);
    forall j ensures GoneAt(nodes, n', r, g, j) { assert GoneAt(nodes, now, r, gone, j); }
    forall j {:trigger j in s} | j in s ensures Within(nodes, r, j) {
      if j in more {
        var name :| name in nodes[i].children && nodes[i].children[name] == j;
        WithinDown(nodes, r, i, name);
      } else {
        assert j in rest && j in stack;
      }
    }
    forall k, name ensures ChildQueued(nodes, g, s, k, name) {
      assert ChildQueued(nodes, gone, stack, k, name);
      if k == i && k in nodes && name in nodes[k].children {
        assert nodes[k].children[name] in nodes[i].children.Values;
        assert nodes[k].children[name] in more;
      } else if k in gone && k in nodes && name in nodes[k].children {
        var c := nodes[k].children[name];
        assert c in stack ==> c in rest || c == i;
      }
    }
  }

  lemma SkipOne(nodes: Nodes, now: Nodes, r: nat, gone: set<nat>, stack: seq<nat>, rest: seq<nat>, i: nat)
    requires r in nodes && nodes[r].view != [] && Dropping(nodes, now, r, gone, stack) && stack == rest + [i]
    requires i !in now
    ensures Dropping(nodes, now, r, gone, rest)
  {
    assert i in stack && GoneAt(nodes, now, r, gone, i);
    forall j {:trigger j in rest} | j in rest ensures Within(nodes, r, j) { assert j in stack; }
    forall k, name ensures ChildQueued(nodes, gone, rest, k, name) {
      assert ChildQueued(nodes, gone, stack, k, name);
      if k in gone && k in nodes && name in nodes[k].children {
        var c := nodes[k].children[name];
        assert c in stack ==> c in rest || c == i;
      }
    }
  }

  lemma AllDropped(nodes: Nodes, now: Nodes, r: nat, gone: set<nat>)
    requires TreeOk(nodes) && r in nodes && r != ROOT && nodes[r].view != [] && Dropping(nodes, now, r, gone, [])
    ensures forall j {:trigger RemovedAt(nodes, now, r, j)} :: RemovedAt(nodes, now, r, j)
  {
    forall i, name ensures ClosedAt(nodes, gone, i, name) { assert ChildQueued(nodes, gone, [], i, name); }
    forall j ensures RemovedAt(nodes, now, r, j) {
      assert GoneAt(nodes, now, r, gone, j);
      if Within(nodes, r, j) { ClosedCovers(nodes, r, gone, j); }
    }
  }

  /** Drop a node and everything below it from the table, with a stack of children still to drop. */
  method RemoveNode(nodes: Nodes, r: nat) returns (now: Nodes)
    requires TreeOk(nodes) && r in nodes && r != ROOT && nodes[r].view != []
    ensures TreeOk(now)
    ensures forall j {:trigger RemovedAt(nodes, now, r, j)} :: RemovedAt(nodes, now, r, j)
  {
    assert UpOk(nodes, r);
    var node := nodes[r];
    now := nodes - {r};
    NotItsParent(nodes, r, r);
    now := now[node.parent := Unlinked(now[node.parent], Last(node.view))];
    var stack := ChildSeq(node.children);
    ghost var gone := {r};
    forall j {:trigger j in stack} | j in stack ensures Within(nodes, r, j) {
      var name :| name in node.children && node.children[name] == j;
      WithinDown(nodes, r, r, name);
    }
    forall j ensures GoneAt(nodes, now, r, gone, j) {}
    forall i, name ensures ChildQueued(nodes, gone, stack, i, name) {
      if i == r && name in node.children { assert node.children[name] in node.children.Values; }
    }
    while stack != []
      invariant Dropping(nodes, now, r, gone, stack)
      decreases |now|, |stack|
    {
      var i, rest := stack[|stack| - 1], stack[..|stack| - 1];
      assert stack == rest + [i];
      if i in now {
        var more := ChildSeq(now[i].children);
        DropOne(nodes, now, r, gone, stack, rest, i, more);
        OneLess(now, i);
        now := now - {i};
        gone, stack := gone + {i}, rest + more;
      } else {
        SkipOne(nodes, now, r, gone, stack, rest, i);
        stack := rest;
      }
    }
    AllDropped(nodes, now, r, gone);
    RemoveKeeps(nodes, now, r);
  }

  lemma OneLess(now: Nodes, i: nat)
    requires i in now
    ensures |now - {i}| == |now| - 1
  {
    assert now == (now - {i})[i := now[i]];
  }
}
