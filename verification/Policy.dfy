/** Write policies (`vm_policies`), compiled by the program into BEFORE triggers on `vm_fs` and
    `vm_file_chunks`, and the `logical_bytes` counter the quota reads. */
module Policy {
  import opened Tables

  datatype Rule = ReadonlyPrefix(prefix: Path) | MaxFileSize(bytes: nat) | DiskQuota(bytes: nat)

  /** A rule prefix covers itself and everything below it; `/` covers every path. */
  predicate Covers(prefix: Path, p: Path) {
    prefix <= p
  }

  predicate Protected(rules: seq<Rule>, p: Path) {
    exists i :: 0 <= i < |rules| && rules[i].ReadonlyPrefix? && Covers(rules[i].prefix, p)
  }

  /** The bytes a row contributes to `logical_bytes`. */
  function Weight(r: Row): nat {
    if r.kind == File then r.size else 0
  }

  function WeightAt(fs: Files, p: Path): nat {
    if p in fs then Weight(fs[p]) else 0
  }

  /** The condition of the `vm_fs` insert and update triggers for the row being written at `p`. The total
      is the counter's value with the row's own previous size taken out. */
  predicate Refused(rules: seq<Rule>, fs: Files, logical: int, p: Path, row: Row) {
    || Protected(rules, p)
    || (row.kind == File && exists i :: 0 <= i < |rules| && rules[i].MaxFileSize? && row.size > rules[i].bytes)
    || (row.kind == File && exists i ::
      0 <= i < |rules| && rules[i].DiskQuota? && logical - WeightAt(fs, p) + row.size > rules[i].bytes)
  }

  /** A prefix protects exactly its continuations. */
  lemma ProtectedIff(rules: seq<Rule>, p: Path)
    ensures Protected(rules, p) <==> exists q, rest: Path :: ReadonlyPrefix(q) in rules && p == q + rest
  {
    if Protected(rules, p) {
      var i :| 0 <= i < |rules| && rules[i].ReadonlyPrefix? && Covers(rules[i].prefix, p);
      var q := rules[i].prefix;
      assert p == q + p[|q|..] && ReadonlyPrefix(q) in rules;
    }
    if q, rest: Path :| ReadonlyPrefix(q) in rules && p == q + rest {
      var i :| 0 <= i < |rules| && rules[i] == ReadonlyPrefix(q);
      assert Covers(rules[i].prefix, p);
    }
  }

  /** The rule forbids the row at `p`: it continues the protected prefix, is a file too large, or is a file that
      would take the recomputed total above the quota. */
  ghost predicate Forbids(r: Rule, fs: Files, p: Path, row: Row) {
    match r
    case ReadonlyPrefix(q) => exists rest: Path :: p == q + rest
    case MaxFileSize(bytes) => row.kind == File && row.size > bytes
    case DiskQuota(bytes) => row.kind == File && Total(fs[p := row]) > bytes
  }

  /** While the counter is the sum of the rows, a write is refused exactly when some rule forbids the row. */
  lemma RefusedIff(rules: seq<Rule>, fs: Files, p: Path, row: Row)
    ensures Refused(rules, fs, Total(fs), p, row) <==> exists r :: r in rules && Forbids(r, fs, p, row)
  {
    TotalWith(fs, p, row);
    ProtectedIff(rules, p);
    if Protected(rules, p) {
      var q, rest: Path :| ReadonlyPrefix(q) in rules && p == q + rest;
      assert Forbids(ReadonlyPrefix(q), fs, p, row);
    }
    if Refused(rules, fs, Total(fs), p, row) && !Protected(rules, p) {
      var i :| 0 <= i < |rules| && !rules[i].ReadonlyPrefix? && Forbids(rules[i], fs, p, row);
    }
    if r :| r in rules && Forbids(r, fs, p, row) {
      var i :| 0 <= i < |rules| && rules[i] == r;
      if r.ReadonlyPrefix? {
        var rest: Path :| p == r.prefix + rest;
        assert ReadonlyPrefix(r.prefix) in rules;
      }
    }
  }

  /** A total that no quota is below. */
  ghost predicate InQuota(rules: seq<Rule>, total: int) {
    forall i {:trigger rules[i]} :: 0 <= i < |rules| && rules[i].DiskQuota? ==> total <= rules[i].bytes
  }

  /** An accepted row leaves the total within the quotas it was within. */
  lemma AcceptedInQuota(rules: seq<Rule>, fs: Files, logical: int, p: Path, row: Row)
    requires InQuota(rules, logical) && !Refused(rules, fs, logical, p, row)
    ensures InQuota(rules, logical - WeightAt(fs, p) + Weight(row))
  {
  }

  // ------------------------------------------------------------------ the counter

  /** Total bytes of regular files, recomputed from the rows. */
  ghost function Total(fs: Files): nat
    decreases |fs|
  {
    if fs == map[] then 0 else
    var p :| p in fs;
    assert |fs - {p}| < |fs| by { assert fs == (fs - {p})[p := fs[p]]; }
    Weight(fs[p]) + Total(fs - {p})
  }

  lemma {:induction false} TotalWithout(fs: Files, p: Path)
    requires p in fs
    ensures Total(fs) == Weight(fs[p]) + Total(fs - {p})
    decreases |fs|
  {
    var q :| q in fs && Total(fs) == Weight(fs[q]) + Total(fs - {q});
    if q != p {
      assert |fs - {q}| < |fs| by { assert fs == (fs - {q})[q := fs[q]]; }
      assert |fs - {p}| < |fs| by { assert fs == (fs - {p})[p := fs[p]]; }
      TotalWithout(fs - {q}, p);
      TotalWithout(fs - {p}, q);
      assert fs - {q} - {p} == fs - {p} - {q};
    }
  }

  /** The total depends on the weights only. */
  lemma {:induction false} SameTotal(fs: Files, fs': Files)
    requires fs.Keys == fs'.Keys && forall p {:trigger WeightAt(fs', p)} :: WeightAt(fs', p) == WeightAt(fs, p)
    ensures Total(fs') == Total(fs)
    decreases |fs|
  {
    if fs == map[] {
      assert fs' == map[];
    } else {
      var p :| p in fs;
      assert |fs - {p}| < |fs| by { assert fs == (fs - {p})[p := fs[p]]; }
      var x, y := fs - {p}, fs' - {p};
      forall q ensures WeightAt(y, q) == WeightAt(x, q) { assert WeightAt(fs', q) == WeightAt(fs, q); }
      assert x.Keys == fs.Keys - {p} && y.Keys == fs'.Keys - {p};
      SameTotal(x, y);
      TotalWithout(fs, p);
      TotalWithout(fs', p);
      assert WeightAt(fs', p) == WeightAt(fs, p);
    }
  }

  lemma {:induction false} TotalAtMost(fs: Files, x: Files, y: Files)
    requires forall p {:trigger WeightAt(fs, p)} :: WeightAt(fs, p) <= WeightAt(x, p) + WeightAt(y, p)
    ensures Total(fs) <= Total(x) + Total(y)
    decreases |fs|
  {
    if fs != map[] {
      var p :| p in fs;
      assert |fs - {p}| < |fs| by { assert fs == (fs - {p})[p := fs[p]]; }
      var f, a, b := fs - {p}, x - {p}, y - {p};
      forall q ensures WeightAt(f, q) <= WeightAt(a, q) + WeightAt(b, q) {
        assert WeightAt(fs, q) <= WeightAt(x, q) + WeightAt(y, q);
      }
      TotalAtMost(f, a, b);
      TotalWithout(fs, p);
      TotalMinus(x, p);
      TotalMinus(y, p);
      assert WeightAt(fs, p) <= WeightAt(x, p) + WeightAt(y, p);
    }
  }

  lemma TotalMinus(fs: Files, p: Path)
    ensures Total(fs) == WeightAt(fs, p) + Total(fs - {p})
  {
    if p in fs { TotalWithout(fs, p); } else { assert fs - {p} == fs; }
  }

  /** Writing one row moves the total by exactly the difference the counter triggers apply. */
  lemma TotalWith(fs: Files, p: Path, row: Row)
    ensures Total(fs[p := row]) == Total(fs) - WeightAt(fs, p) + Weight(row)
    ensures Total(fs[p := row]) ==
      Total(fs) - (if p in fs && fs[p].kind == File then fs[p].size else 0) + if row.kind == File then row.size else 0
  {
    TotalWithout(fs[p := row], p);
    if p in fs {
      TotalWithout(fs, p);
      assert fs[p := row] - {p} == fs - {p};
    } else {
      assert fs[p := row] - {p} == fs;
    }
  }
}
