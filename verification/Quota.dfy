/** The write policy over whole runs: what the rules compile to, and what the byte counter and the quota keep
    while statements run under them. */
module Quota {
  import opened Tables
  import opened Policy
  import Moves

  // ------------------------------------------------------------------ compiling the rules

  /** What the triggers are built from: the protected prefixes and the strictest limit of each kind. */
  datatype Limits = Limits(prefixes: seq<Path>, maxSize: Option<nat>, quota: Option<nat>)

  function Stricter(a: Option<nat>, n: nat): Option<nat> {
    match a case None => Some(n) case Some(m) => Some(if n < m then n else m)
  }

  predicate Over(limit: Option<nat>, n: int) { limit.Some? && n > limit.value }

  /** The condition of the row triggers, from the compiled limits. */
  predicate RefusedBy(l: Limits, fs: Files, logical: int, p: Path, row: Row) {
    || (exists i :: 0 <= i < |l.prefixes| && Covers(l.prefixes[i], p))
    || (row.kind == File && Over(l.maxSize, row.size))
    || (row.kind == File && Over(l.quota, logical - WeightAt(fs, p) + row.size))
  }

  ghost predicate PrefixesOf(rules: seq<Rule>, n: nat, prefixes: seq<Path>, q: Path) {
    (exists i :: 0 <= i < n && i < |rules| && rules[i].ReadonlyPrefix? && rules[i].prefix == q) <==> q in prefixes
  }

  ghost predicate SizesOf(rules: seq<Rule>, n: nat, limit: Option<nat>, size: int) {
    (exists i :: 0 <= i < n && i < |rules| && rules[i].MaxFileSize? && size > rules[i].bytes) <==> Over(limit, size)
  }

  ghost predicate QuotasOf(rules: seq<Rule>, n: nat, limit: Option<nat>, total: int) {
    (exists i :: 0 <= i < n && i < |rules| && rules[i].DiskQuota? && total > rules[i].bytes) <==> Over(limit, total)
  }

  ghost predicate LimitsOf(rules: seq<Rule>, n: nat, l: Limits) {
    && (forall q {:trigger PrefixesOf(rules, n, l.prefixes, q)} :: PrefixesOf(rules, n, l.prefixes, q))
    && (forall size {:trigger SizesOf(rules, n, l.maxSize, size)} :: SizesOf(rules, n, l.maxSize, size))
    && (forall total {:trigger QuotasOf(rules, n, l.quota, total)} :: QuotasOf(rules, n, l.quota, total))
  }

  lemma OneMoreRule(rules: seq<Rule>, n: nat, l: Limits, m: Limits)
    requires LimitsOf(rules, n, l) && n < |rules|
    requires m == match rules[n]
      case ReadonlyPrefix(p) => l.(prefixes := l.prefixes + [p])
      case MaxFileSize(b) => l.(maxSize := Stricter(l.maxSize, b))
      case DiskQuota(b) => l.(quota := Stricter(l.quota, b))
    ensures LimitsOf(rules, n + 1, m)
  {
    var k := n + 1;
    forall q ensures PrefixesOf(rules, k, m.prefixes, q) {
      assert PrefixesOf(rules, n, l.prefixes, q);
      if rules[n].ReadonlyPrefix? && rules[n].prefix == q { assert rules[n].ReadonlyPrefix?; }
    }
    forall size ensures SizesOf(rules, k, m.maxSize, size) { assert SizesOf(rules, n, l.maxSize, size); }
    forall total ensures QuotasOf(rules, k, m.quota, total) { assert QuotasOf(rules, n, l.quota, total); }
  }

  /** Compile the rules: the strictest of several limits is the one in force. */
  method CompileRules(rules: seq<Rule>) returns (l: Limits)
    ensures forall fs, logical, p, row {:trigger RefusedBy(l, fs, logical, p, row)} ::
      RefusedBy(l, fs, logical, p, row) <==> Refused(rules, fs, logical, p, row)
  {
    l := Limits([], None, None);
    forall q ensures PrefixesOf(rules, 0, l.prefixes, q) {}
    forall x ensures SizesOf(rules, 0, l.maxSize, x) && QuotasOf(rules, 0, l.quota, x) {}
    var i := 0;
    while i < |rules|
      invariant 0 <= i <= |rules| && LimitsOf(rules, i, l)
    {
      ghost var was := l;
      match rules[i] {
        case ReadonlyPrefix(p) => l := l.(prefixes := l.prefixes + [p]);
        case MaxFileSize(b) => l := l.(maxSize := Stricter(l.maxSize, b));
        case DiskQuota(b) => l := l.(quota := Stricter(l.quota, b));
      }
      OneMoreRule(rules, i, was, l);
      i := i + 1;
    }
    forall fs, logical, p, row {:trigger RefusedBy(l, fs, logical, p, row)}
      ensures RefusedBy(l, fs, logical, p, row) <==> Refused(rules, fs, logical, p, row)
    {
      CompiledSame(rules, l, fs, logical, p, row);
    }
  }

  lemma CompiledSame(rules: seq<Rule>, l: Limits, fs: Files, logical: int, p: Path, row: Row)
    requires LimitsOf(rules, |rules|, l)
    ensures RefusedBy(l, fs, logical, p, row) <==> Refused(rules, fs, logical, p, row)
  {
    assert SizesOf(rules, |rules|, l.maxSize, row.size);
    assert QuotasOf(rules, |rules|, l.quota, logical - WeightAt(fs, p) + row.size);
    if Protected(rules, p) {
      var i :| 0 <= i < |rules| && rules[i].ReadonlyPrefix? && Covers(rules[i].prefix, p);
      assert PrefixesOf(rules, |rules|, l.prefixes, rules[i].prefix);
    }
    if i :| 0 <= i < |l.prefixes| && Covers(l.prefixes[i], p) {
      assert PrefixesOf(rules, |rules|, l.prefixes, l.prefixes[i]);
    }
  }

  // ------------------------------------------------------------------ runs under the rules

  /** A statement on `vm_fs`, as every writer issues it. */
  datatype Statement =
    | Upsert(path: Path, row: Row)     // insert, replace, growth in place, change of kind
    | Delete(path: Path)
    | MoveRow(from: Path, to: Path)

  datatype Books = Books(fs: Files, logical: int)

  /** One statement under the triggers: refused, or done with the counter moved by the counter triggers. */
  function Perform(rules: seq<Rule>, s: Books, x: Statement): Books {
    match x
    case Upsert(p, row) =>
      if Refused(rules, s.fs, s.logical, p, row) then s
      else Books(s.fs[p := row], s.logical - WeightAt(s.fs, p) + Weight(row))
    case Delete(p) => if Protected(rules, p) || p !in s.fs then s else Books(s.fs - {p}, s.logical - WeightAt(s.fs, p))
    case MoveRow(from, to) =>
      if from !in s.fs || Moves.MoveRefused(rules, s.fs, s.logical, from, to) then s
      else s.(fs := Moves.MovedFiles(s.fs, from, to))
  }

  function PerformAll(rules: seq<Rule>, s: Books, xs: seq<Statement>): Books
    decreases |xs|
  {
    if xs == [] then s else PerformAll(rules, Perform(rules, s, xs[0]), xs[1..])
  }

  /** The counter is the recomputed sum, and no quota is exceeded. */
  ghost predicate Within(rules: seq<Rule>, s: Books) {
    s.logical == Total(s.fs) && InQuota(rules, s.logical)
  }

  lemma StatementStaysWithin(rules: seq<Rule>, s: Books, x: Statement)
    requires Within(rules, s)
    ensures Within(rules, Perform(rules, s, x))
  {
    match x
    case Upsert(p, row) => TotalWith(s.fs, p, row);
    case Delete(p) => if p in s.fs { TotalWithout(s.fs, p); }
    case MoveRow(from, to) => if from in s.fs && (to !in s.fs || to == from) { Moves.MoveTotal(s.fs, from, to); }
  }

  /** Once the total is at or below every quota, no run of statements under the rules takes it above, and the
      counter stays the sum of the rows throughout. */
  lemma {:induction false} RunStaysWithin(rules: seq<Rule>, s: Books, xs: seq<Statement>)
    requires Within(rules, s)
    ensures Within(rules, PerformAll(rules, s, xs))
    decreases |xs|
  {
    if xs != [] {
      StatementStaysWithin(rules, s, xs[0]);
      RunStaysWithin(rules, Perform(rules, s, xs[0]), xs[1..]);
    }
  }

  /** No statement writes, deletes or moves a row at a protected prefix `q` or below it, from there or to there. */
  lemma PrefixRefuses(rules: seq<Rule>, q: Path, rest: Path, s: Books, row: Row, other: Path)
    requires ReadonlyPrefix(q) in rules
    ensures Perform(rules, s, Upsert(q + rest, row)) == s && Perform(rules, s, Delete(q + rest)) == s
    ensures Perform(rules, s, MoveRow(q + rest, other)) == s && Perform(rules, s, MoveRow(other, q + rest)) == s
  {
    ProtectedIff(rules, q + rest);
  }

  /** A run never touches a row at a protected prefix `q` or below it. */
  lemma {:induction false} ProtectedRowsStay(rules: seq<Rule>, s: Books, xs: seq<Statement>, q: Path, rest: Path)
    requires ReadonlyPrefix(q) in rules
    ensures var t, p := PerformAll(rules, s, xs), q + rest;
      (p in t.fs <==> p in s.fs) && (p in s.fs ==> t.fs[p] == s.fs[p])
    decreases |xs|
  {
    ProtectedIff(rules, q + rest);
    if xs != [] { ProtectedRowsStay(rules, Perform(rules, s, xs[0]), xs[1..], q, rest); }
  }

  /** A path that continues no protected prefix is refused by none: other rules aside, its row can be written and
      deleted. */
  lemma UnprotectedAccepted(rules: seq<Rule>, p: Path, s: Books, row: Row)
    requires forall q, rest: Path {:trigger q + rest, ReadonlyPrefix(q)} ::
      ReadonlyPrefix(q) in rules ==> p != q + rest
    requires s.logical == Total(s.fs) && row.kind != File
    ensures Perform(rules, s, Upsert(p, row)).fs == s.fs[p := row] && Perform(rules, s, Delete(p)).fs == s.fs - {p}
  {
    ProtectedIff(rules, p);
    assert !Protected(rules, p);
  }

  /** A move keeps the total, and yet a quota can refuse it: the row counts at its old path and again at its new
      one. A file moved to a free path by rules that refuse it for nothing else is refused exactly when the total
      plus its own size is above some quota. */
  lemma MoveRefusedForQuota(rules: seq<Rule>, fs: Files, from: Path, to: Path)
    requires from in fs && to !in fs && fs[from].kind == File
    requires !Protected(rules, from) && !Protected(rules, to)
    requires forall i {:trigger rules[i]} ::
      0 <= i < |rules| && rules[i].MaxFileSize? ==> fs[from].size <= rules[i].bytes
    ensures Total(Moves.MovedFiles(fs, from, to)) == Total(fs)
    ensures Moves.MoveRefused(rules, fs, Total(fs), from, to) <==> !InQuota(rules, Total(fs) + fs[from].size)
  {
    Moves.MoveTotal(fs, from, to);
  }
}
