/** The link text a mount shows for a stored target: an absolute target becomes a relative path from the
    link's own directory, so that the kernel resolves it inside the mount. */
module MountLinks {
  import opened Tables

  // ------------------------------------------------------------------ splitting and joining

  /** The parts of a text between its slashes. */
  function Split(s: string): (parts: seq<string>)
    ensures |parts| > 0
  {
    if s == "" then [""]
    else if s[0] == '/' then [""] + Split(s[1..])
    else var rest := Split(s[1..]); [[s[0]] + rest[0]] + rest[1..]
  }

  function Join(parts: seq<string>): string
    requires parts != []
  {
    if |parts| == 1 then parts[0] else parts[0] + "/" + Join(parts[1..])
  }

  predicate NoSlash(s: string) { forall i :: 0 <= i < |s| ==> s[i] != '/' }

  lemma {:induction false} SplitPlain(s: string)
    requires NoSlash(s)
    ensures Split(s) == [s]
    decreases |s|
  {
    if s != "" {
      SplitPlain(s[1..]);
      assert [s[0]] + s[1..] == s;
    }
  }

  lemma {:induction false} SplitFirst(a: string, b: string)
    requires NoSlash(a)
    ensures Split(a + "/" + b) == [a] + Split(b)
    decreases |a|
  {
    var s := a + "/" + b;
    if a == "" {
      assert s[0] == '/' && s[1..] == b;
    } else {
      SplitFirst(a[1..], b);
      assert s[1..] == a[1..] + "/" + b;
      assert [a[0]] + a[1..] == a;
      assert ([a[1..]] + Split(b))[1..] == Split(b);
    }
  }

  /** Joining parts that hold no slash and splitting the result gives the parts back. */
  lemma {:induction false} SplitJoin(parts: seq<string>)
    requires parts != [] && forall i :: 0 <= i < |parts| ==> NoSlash(parts[i])
    ensures Split(Join(parts)) == parts
    decreases |parts|
  {
    if |parts| == 1 {
      SplitPlain(parts[0]);
    } else {
      SplitJoin(parts[1..]);
      SplitFirst(parts[0], Join(parts[1..]));
      assert [parts[0]] + parts[1..] == parts;
    }
  }

  lemma {:induction false} SplitHasNoSlash(s: string, i: nat)
    requires i < |Split(s)|
    ensures NoSlash(Split(s)[i])
    decreases |s|
  {
    if s != "" {
      if i > 0 {
        SplitHasNoSlash(s[1..], if s[0] == '/' then i - 1 else i);
      } else if s[0] != '/' {
        SplitHasNoSlash(s[1..], 0);
      }
    }
  }

  // ------------------------------------------------------------------ lexical resolution

  /** One component followed from directory `at`; `..` at the top stays there. */
  function Follow(at: Path, c: Name): Path {
    if c == "" || c == "." then at
    else if c == ".." then (if at == [] then [] else at[..|at| - 1])
    else at + [c]
  }

  /** The components followed in turn. */
  function Walk(at: Path, cs: seq<Name>): Path
    decreases |cs|
  {
    if cs == [] then at else Walk(Follow(at, cs[0]), cs[1..])
  }

  /** No step of the walk tries to leave the top directory. */
  predicate Inside(at: Path, cs: seq<Name>)
    decreases |cs|
  {
    cs == [] || ((cs[0] == ".." ==> at != []) && Inside(Follow(at, cs[0]), cs[1..]))
  }

  /** That is: no `..` is met where the steps before it led to the top. */
  lemma {:induction false} InsideIff(at: Path, cs: seq<Name>)
    ensures Inside(at, cs) <==> forall k :: 0 <= k < |cs| && cs[k] == ".." ==> Walk(at, cs[..k]) != []
    decreases |cs|
  {
    if cs != [] {
      var next, rest := Follow(at, cs[0]), cs[1..];
      InsideIff(next, rest);
      assert Walk(at, cs[..0]) == at;
      forall k | 0 <= k < |rest| ensures cs[k + 1] == rest[k] && Walk(at, cs[..k + 1]) == Walk(next, rest[..k]) {
        assert cs[..k + 1][1..] == rest[..k];
      }
      if Inside(at, cs) {
        forall k | 0 <= k < |cs| && cs[k] == ".." ensures Walk(at, cs[..k]) != [] {
          if k > 0 { assert rest[k - 1] == ".." && Walk(next, rest[..k - 1]) != []; }
        }
      } else if at != [] || cs[0] != ".." {
        var k :| 0 <= k < |rest| && rest[k] == ".." && Walk(next, rest[..k]) == [];
        assert cs[k + 1] == ".." && Walk(at, cs[..k + 1]) == [];
      }
    }
  }

  lemma {:induction false} WalkMore(at: Path, cs: seq<Name>, c: Name)
    ensures Walk(at, cs + [c]) == Follow(Walk(at, cs), c)
    decreases |cs|
  {
    if cs == [] {
      assert [c][1..] == [];
    } else {
      assert (cs + [c])[1..] == cs[1..] + [c];
      WalkMore(Follow(at, cs[0]), cs[1..], c);
    }
  }

  /** A component that names an entry. */
  predicate Plain(c: Name) { c != "" && c != "." && c != ".." && NoSlash(c) }

  ghost predicate AllPlain(p: Path) { forall i {:trigger p[i]} :: 0 <= i < |p| ==> Plain(p[i]) }

  /** Push a component that names an entry, pop at `..`, skip the others. */
  method PushOrPop(out: Path, c: Name) returns (next: Path)
    requires AllPlain(out) && NoSlash(c)
    ensures next == Follow(out, c) && AllPlain(next)
  {
    next := out;
    if c == "" || c == "." { return; }
    if c == ".." {
      if out != [] { next := out[..|out| - 1]; }
      return;
    }
    next := out + [c];
  }

  lemma WalkPrefix(parts: seq<Name>, i: nat)
    requires i < |parts|
    ensures Walk([], parts[..i + 1]) == Follow(Walk([], parts[..i]), parts[i])
  {
    WalkMore([], parts[..i], parts[i]);
    assert parts[..i + 1] == parts[..i] + [parts[i]];
  }

  /** The components of a path with `.` and `..` resolved, not climbing above the top. */
  method SplitComponents(p: string) returns (out: Path)
    ensures out == Walk([], Split(p)) && AllPlain(out)
  {
    out := [];
    var parts := Split(p);
    var i := 0;
    ghost var walked := Walk([], parts[..0]);
    while i < |parts|
      invariant 0 <= i <= |parts| && out == walked && walked == Walk([], parts[..i]) && AllPlain(out)
    {
      SplitHasNoSlash(p, i);
      WalkPrefix(parts, i);
      walked := Follow(walked, parts[i]);
      out := PushOrPop(out, parts[i]);
      i := i + 1;
    }
    assert parts[..|parts|] == parts;
  }

  // ------------------------------------------------------------------ the link text

  function Ups(n: nat): (u: seq<Name>)
    ensures |u| == n && forall i {:trigger u[i]} :: 0 <= i < n ==> u[i] == ".."
  {
    seq(n, _ => "..")
  }

  /** Climbing `n` levels from deep enough gives the directory `n` levels up, never leaving the top. */
  lemma {:induction false} ClimbWalk(at: Path, n: nat, rest: seq<Name>)
    requires n <= |at|
    ensures Walk(at, Ups(n) + rest) == Walk(at[..|at| - n], rest)
    ensures Inside(at, Ups(n) + rest) <==> Inside(at[..|at| - n], rest)
    decreases n
  {
    var cs := Ups(n) + rest;
    if n == 0 {
      assert cs == rest && at[..|at|] == at;
    } else {
      assert cs[0] == ".." && cs[1..] == Ups(n - 1) + rest;
      var up := at[..|at| - 1];
      ClimbWalk(up, n - 1, rest);
      assert up[..|up| - (n - 1)] == at[..|at| - n];
    }
  }

  lemma {:induction false} DescendWalk(at: Path, down: Path)
    requires AllPlain(down)
    ensures Walk(at, down) == at + down && Inside(at, down)
    decreases |down|
  {
    if down != [] {
      assert Plain(down[0]);
      PlainTail(down, 1);
      DescendWalk(at + [down[0]], down[1..]);
      assert at + [down[0]] + down[1..] == at + down;
    } else {
      assert at + down == at;
    }
  }

  /** The relative path from directory `from` to `to` leads there without leaving the top. */
  lemma RelativeLeadsThere(from: Path, to: Path, common: nat)
    requires common <= |from| && common <= |to| && from[..common] == to[..common] && AllPlain(to)
    ensures var cs := Ups(|from| - common) + to[common..];
      Walk(from, cs) == to && Inside(from, cs)
  {
    var n, down, top := |from| - common, to[common..], from[..common];
    assert from[..|from| - n] == top;
    PlainTail(to, common);
    assert Walk(top, down) == top + down && Inside(top, down) by { DescendWalk(top, down); }
    assert top + down == to;
    assert Walk(from, Ups(n) + down) == Walk(top, down) && Inside(from, Ups(n) + down) by { ClimbWalk(from, n, down); }
  }

  lemma PlainTail(to: Path, common: nat)
    requires AllPlain(to) && common <= |to|
    ensures AllPlain(to[common..])
  {
    var down := to[common..];
    forall i {:trigger down[i]} | 0 <= i < |down| ensures Plain(down[i]) { assert down[i] == to[common + i]; }
  }

  lemma RelativeHasNoSlash(n: nat, down: Path)
    requires AllPlain(down)
    ensures var cs := Ups(n) + down; forall i :: 0 <= i < |cs| ==> NoSlash(cs[i])
  {
    var cs := Ups(n) + down;
    forall i | 0 <= i < |cs| ensures NoSlash(cs[i]) {
      if i < n { assert cs[i] == Ups(n)[i] == ".."; } else { assert cs[i] == down[i - n] && Plain(down[i - n]); }
    }
  }

  lemma DotStays(at: Path)
    ensures Walk(at, Split(".")) == at && Inside(at, Split("."))
  {
    SplitPlain(".");
    assert ["."][1..] == [];
  }

  /** How many leading components two paths share. */
  method CommonPrefix(from: Path, to: Path) returns (common: nat)
    ensures common <= |from| && common <= |to| && from[..common] == to[..common]
    ensures common == |from| || common == |to| || from[common] != to[common]
  {
    common := 0;
    while common < |from| && common < |to| && from[common] == to[common]
      invariant common <= |from| && common <= |to| && from[..common] == to[..common]
    {
      common := common + 1;
    }
  }

  /** `text`, resolved from the directory `from`, leads to `to` and never leaves the top. */
  ghost predicate Leads(from: Path, text: string, to: Path) {
    Walk(from, Split(text)) == to && Inside(from, Split(text))
  }

  lemma JoinedLeads(from: Path, to: Path, out: seq<Name>)
    requires out != [] && (forall i :: 0 <= i < |out| ==> NoSlash(out[i])) && Walk(from, out) == to && Inside(from, out)
    ensures Leads(from, Join(out), to)
  {
    SplitJoin(out);
  }

  /** A text of no more components than it takes from any directory that holds both. */
  ghost predicate Short(from: Path, text: string, to: Path) {
    forall c: nat {:trigger from[..c]} :: c <= |from| && c <= |to| && from[..c] == to[..c] ==>
      |Split(text)| <= if |from| + |to| > 2 * c then |from| + |to| - 2 * c else 1
  }

  lemma LongestIsShort(from: Path, to: Path, common: nat, text: string)
    requires common <= |from| && common <= |to| && from[..common] == to[..common]
    requires common == |from| || common == |to| || from[common] != to[common]
    requires |Split(text)| == if |from| + |to| > 2 * common then |from| + |to| - 2 * common else 1
    ensures Short(from, text, to)
  {
    forall c: nat {:trigger from[..c]} | c <= |from| && c <= |to| && from[..c] == to[..c] ensures c <= common {
      forall k | 0 <= k < c ensures from[k] == to[k] { assert from[..c][k] == to[..c][k]; }
    }
  }

  method RelativeText(from: Path, to: Path) returns (text: string)
    requires AllPlain(to)
    ensures Leads(from, text, to) && Short(from, text, to)
  {
    var common := CommonPrefix(from, to);
    var out := Ups(|from| - common) + to[common..];
    RelativeLeadsThere(from, to, common);
    if out == [] {
      DotStays(from);
      LongestIsShort(from, to, common, ".");
      return ".";
    }
    PlainTail(to, common);
    RelativeHasNoSlash(|from| - common, to[common..]);
    JoinedLeads(from, to, out);
    text := Join(out);
    SplitJoin(out);
    LongestIsShort(from, to, common, text);
  }

  /** The directory a path is in. */
  function Parent(p: Path): Path { if p == [] then [] else p[..|p| - 1] }

  /** The link text for a stored target. An absolute one, resolved from the directory the link is in, leads to the
      target's own components, no step of it leaves the mount, and it climbs no further than it has to. */
  method MountLinkText(link: string, target: string) returns (text: string)
    ensures target == "" || target[0] != '/' ==> text == target
    ensures target != "" && target[0] == '/' ==>
      forall dir: Path, name: Name {:trigger dir + [name]} :: Walk([], Split(link)) == dir + [name] ==>
        Leads(dir, text, Walk([], Split(target))) && Short(dir, text, Walk([], Split(target)))
    ensures target != "" && target[0] == '/' && Walk([], Split(link)) == [] ==>
      Leads([], text, Walk([], Split(target)))
  {
    if target == "" || target[0] != '/' { return target; }
    var from := SplitComponents(link);
    var to := SplitComponents(target);
    text := RelativeText(Parent(from), to);
    forall dir: Path, name: Name {:trigger dir + [name]} | from == dir + [name] ensures Parent(from) == dir {}
  }
}
