/** The sandbox's syscall filter: a deny list compiled to classic BPF, as the bytes of a `sock_filter` array,
    and the machine that runs it. */
module Seccomp {
  import opened Tables

  type Word = w: nat | w < 0x1_0000_0000
  type Half = h: nat | h < 0x1_0000

  const AUDIT_ARCH_X86_64: Word := 0xC000_003E
  const X32_SYSCALL_BIT: Word := 0x4000_0000
  const RET_ALLOW: Word := 0x7fff_0000
  const RET_KILL_PROCESS: Word := 0x8000_0000
  const RET_ERRNO: Word := 0x0005_0000
  const LD_W_ABS: Half := 0x20
  const JEQ_K: Half := 0x15
  const JGE_K: Half := 0x35
  const JSET_K: Half := 0x45
  const RET_K: Half := 0x06
  const OFF_NR: Word := 0
  const OFF_ARCH: Word := 4
  const OFF_ARG0_LO: Word := 16
  /** The eight namespace flags of clone(2). */
  const CLONE_NS_FLAGS: Word := 0x7E02_0080
  const SYS_CLONE: Word := 56
  const EPERM: Half := 1
  const ENOSYS: Half := 38

  /** One deny-list entry. */
  datatype Denied = Denied(nr: Word, errno: Half)

  /** What the kernel shows the filter: `struct seccomp_data`, as far as the program reads it. */
  datatype Call = Call(nr: Word, arch: Word, arg0: Word)

  function Pow2(i: nat): (p: nat)
    ensures p > 0
  {
    if i == 0 then 1 else 2 * Pow2(i - 1)
  }

  predicate Bit(w: Word, i: nat) { w / Pow2(i) % 2 == 1 }

  /** `a & b` is not zero. */
  predicate SharesBit(a: Word, b: Word) {
    exists i :: 0 <= i < 32 && Bit(a, i) && Bit(b, i)
  }

  /** The return value that makes the call fail with `e`: the errno fills the low half, which is free. */
  function Errno(e: Half): Word {
    RET_ERRNO + e
  }

  // ------------------------------------------------------------------ instructions and their bytes

  /** One `sock_filter`. */
  datatype Ins = Ins(code: Half, jt: Byte, jf: Byte, k: Word)

  /** The eight bytes of an instruction, low byte first. */
  function Bytes8(i: Ins): (b: Bytes)
    ensures |b| == 8
  {
    [i.code % 256, i.code / 256, i.jt, i.jf, i.k % 256, i.k / 256 % 256, i.k / 65536 % 256, i.k / 16777216]
  }

  function Low(a: nat, b: nat): nat { a + 256 * b }

  /** The instruction eight bytes stand for. */
  function Decode8(b: Bytes): Ins
    requires |b| == 8
  {
    Ins(Low(b[0], b[1]), b[2], b[3], Low(Low(b[4], b[5]), Low(b[6], b[7]) * 256))
  }

  lemma InsRoundTrip(i: Ins)
    ensures Decode8(Bytes8(i)) == i
  {
    var k := i.k;
    assert k == k % 256 + 256 * (k / 256);
    assert k / 256 == k / 256 % 256 + 256 * (k / 65536);
    assert k / 65536 == k / 65536 % 256 + 256 * (k / 16777216);
  }

  function Flat(p: seq<Ins>): Bytes {
    if p == [] then [] else Flat(p[..|p| - 1]) + Bytes8(p[|p| - 1])
  }

  lemma {:induction false} FlatAt(p: seq<Ins>, j: nat)
    requires j < |p|
    ensures |Flat(p)| == 8 * |p| && Flat(p)[8 * j..8 * j + 8] == Bytes8(p[j])
    decreases |p|
  {
    var q := p[..|p| - 1];
    FlatSize(q);
    if j < |q| {
      FlatAt(q, j);
      assert Flat(p)[8 * j..8 * j + 8] == Flat(q)[8 * j..8 * j + 8];
    } else {
      assert Flat(p)[8 * j..8 * j + 8] == Bytes8(p[j]);
    }
  }

  lemma {:induction false} FlatSize(p: seq<Ins>)
    ensures |Flat(p)| == 8 * |p|
    decreases |p|
  {
    if p != [] { FlatSize(p[..|p| - 1]); }
  }

  // ------------------------------------------------------------------ the machine

  /** The word of the call data at an offset. */
  function Load(c: Call, off: Word): Option<Word> {
    if off == OFF_NR then Some(c.nr)
    else if off == OFF_ARCH then Some(c.arch)
    else if off == OFF_ARG0_LO then Some(c.arg0)
    else None
  }

  /** Where an instruction that is no return goes on, and with which accumulator. */
  function Next(i: Ins, c: Call, pc: nat, acc: Word): Option<(nat, Word)> {
    if i.code == LD_W_ABS then (match Load(c, i.k) case Some(w) => Some((pc + 1, w)) case None => None)
    else if i.code == JEQ_K then Some((pc + 1 + (if acc == i.k then i.jt else i.jf), acc))
    else if i.code == JGE_K then Some((pc + 1 + (if acc >= i.k then i.jt else i.jf), acc))
    else if i.code == JSET_K then Some((pc + 1 + (if SharesBit(acc, i.k) then i.jt else i.jf), acc))
    else None
  }

  /** Run the filter from instruction `pc` with accumulator `acc`. `None` means it ran off the end or met an
      instruction the filter does not use. Jumps only go forward, so every run ends. */
  function Run(prog: Bytes, c: Call, pc: nat, acc: Word): Option<Word>
    decreases |prog| - pc
  {
    if 8 * pc + 8 > |prog| then None else
    var i := Decode8(prog[8 * pc..8 * pc + 8]);
    if i.code == RET_K then Some(i.k) else
    match Next(i, c, pc, acc)
    case Some(n) => Run(prog, c, n.0, n.1)
    case None => None
  }

  /** The same machine on instructions instead of bytes. */
  ghost function RunList(p: seq<Ins>, c: Call, pc: nat, acc: Word): Option<Word>
    decreases |p| - pc
  {
    if pc >= |p| then None else
    if p[pc].code == RET_K then Some(p[pc].k) else
    match Next(p[pc], c, pc, acc)
    case Some(n) => RunList(p, c, n.0, n.1)
    case None => None
  }

  /** Running the bytes is running the instructions they stand for. */
  lemma {:induction false} BytesRunAsList(p: seq<Ins>, c: Call, pc: nat, acc: Word)
    ensures Run(Flat(p), c, pc, acc) == RunList(p, c, pc, acc)
    decreases |p| - pc
  {
    FlatSize(p);
    if pc < |p| {
      Fetch(p, pc);
      match Next(p[pc], c, pc, acc) {
        case Some(n) => if p[pc].code != RET_K { BytesRunAsList(p, c, n.0, n.1); }
        case None =>
      }
    }
  }

  lemma Fetch(p: seq<Ins>, pc: nat)
    requires pc < |p|
    ensures 8 * pc + 8 <= |Flat(p)| && Decode8(Flat(p)[8 * pc..8 * pc + 8]) == p[pc]
  {
    FlatAt(p, pc);
    InsRoundTrip(p[pc]);
  }

  // ------------------------------------------------------------------ the compiler

  const HEAD: seq<Ins> := [
    Ins(LD_W_ABS, 0, 0, OFF_ARCH),
    Ins(JEQ_K, 1, 0, AUDIT_ARCH_X86_64),
    Ins(RET_K, 0, 0, RET_KILL_PROCESS),
    Ins(LD_W_ABS, 0, 0, OFF_NR),
    Ins(JGE_K, 0, 1, X32_SYSCALL_BIT),
    Ins(RET_K, 0, 0, Errno(ENOSYS))]

  const TAIL: seq<Ins> := [
    Ins(JEQ_K, 0, 3, SYS_CLONE),
    Ins(LD_W_ABS, 0, 0, OFF_ARG0_LO),
    Ins(JSET_K, 0, 1, CLONE_NS_FLAGS),
    Ins(RET_K, 0, 0, Errno(EPERM)),
    Ins(RET_K, 0, 0, RET_ALLOW)]

  /** The instructions for a deny list, in numbers: two per entry between a fixed head and a fixed tail. */
  ghost predicate Compiled(deny: seq<Denied>, p: seq<Ins>) {
    && |p| == 11 + 2 * |deny|
    && p[..6] == [Ins(0x20, 0, 0, 4), Ins(0x15, 1, 0, 0xC000_003E), Ins(0x06, 0, 0, 0x8000_0000),
      Ins(0x20, 0, 0, 0), Ins(0x35, 0, 1, 0x4000_0000), Ins(0x06, 0, 0, 0x0005_0026)]
    && p[6 + 2 * |deny|..] == [Ins(0x15, 0, 3, 56), Ins(0x20, 0, 0, 16), Ins(0x45, 0, 1, 0x7E02_0080),
      Ins(0x06, 0, 0, 0x0005_0001), Ins(0x06, 0, 0, 0x7fff_0000)]
    && forall i {:trigger deny[i]} :: 0 <= i < |deny| ==>
      && p[6 + 2 * i] == Ins(0x15, 0, 1, deny[i].nr)
      && p[7 + 2 * i] == Ins(0x06, 0, 0, 0x0005_0000 + deny[i].errno)
  }

  /** The program for a deny list, as bytes. */
  method Program(deny: seq<Denied>) returns (bytes: Bytes, ghost p: seq<Ins>)
    ensures Compiled(deny, p) && bytes == Flat(p)
    ensures forall c: Call {:trigger Run(bytes, c, 0, 0)} ::
      Run(bytes, c, 0, 0).Some? && Decides(deny, c, Run(bytes, c, 0, 0).value)
  {
    var q := HEAD;
    var i := 0;
    while i < |deny|
      invariant 0 <= i <= |deny| && |q| == 6 + 2 * i && q[..6] == HEAD
      invariant forall j {:trigger deny[j]} :: 0 <= j < i ==>
        q[6 + 2 * j] == Ins(JEQ_K, 0, 1, deny[j].nr) && q[7 + 2 * j] == Ins(RET_K, 0, 0, Errno(deny[j].errno))
    {
      q := q + [Ins(JEQ_K, 0, 1, deny[i].nr), Ins(RET_K, 0, 0, Errno(deny[i].errno))];
      i := i + 1;
    }
    q := q + TAIL;
    p := q;
    bytes := Flat(q);
    forall c: Call {:trigger Run(bytes, c, 0, 0)}
      ensures Run(bytes, c, 0, 0).Some? && Decides(deny, c, Run(bytes, c, 0, 0).value)
    {
      FilterCorrect(deny, p, c);
    }
  }

  // ------------------------------------------------------------------ what it does

  /** One of the namespace flags: bits 7, 17 and 25 to 30. */
  predicate AsksNamespace(arg0: Word) {
    || arg0 / 128 % 2 == 1 || arg0 / 131072 % 2 == 1 || arg0 / 33554432 % 2 == 1 || arg0 / 67108864 % 2 == 1
    || arg0 / 134217728 % 2 == 1 || arg0 / 268435456 % 2 == 1 || arg0 / 536870912 % 2 == 1
    || arg0 / 1073741824 % 2 == 1
  }

  /** Entry `i` is the first that names the call. */
  predicate FirstNamed(deny: seq<Denied>, nr: Word, i: nat) {
    i < |deny| && deny[i].nr == nr && forall j :: 0 <= j < i ==> deny[j].nr != nr
  }

  /** The return value `v` for the call, in numbers: kill another architecture, ENOSYS for an x32 number, the
      errno of the first entry that names the call, EPERM for a clone that asks for a namespace, allow the
      rest. */
  ghost predicate Decides(deny: seq<Denied>, c: Call, v: Word) {
    if c.arch != 0xC000_003E then v == 0x8000_0000
    else if c.nr >= 0x4000_0000 then v == 0x0005_0026
    else
      && (forall i: nat {:trigger FirstNamed(deny, c.nr, i)} ::
        FirstNamed(deny, c.nr, i) ==> v / 65536 == 5 && v % 65536 == deny[i].errno)
      && ((forall i :: 0 <= i < |deny| ==> deny[i].nr != c.nr) ==>
        v == if c.nr == 56 && AsksNamespace(c.arg0) then 0x0005_0001 else 0x7fff_0000)
  }

  lemma NamespaceBits(a: Word)
    ensures SharesBit(a, CLONE_NS_FLAGS) <==> AsksNamespace(a)
  {
    FlagBits();
    Powers();
    if SharesBit(a, CLONE_NS_FLAGS) {
      var i :| 0 <= i < 32 && Bit(a, i) && Bit(CLONE_NS_FLAGS, i);
    }
    if AsksNamespace(a) {
      assert Bit(a, 7) || Bit(a, 17) || Bit(a, 25) || Bit(a, 26) || Bit(a, 27) || Bit(a, 28) || Bit(a, 29) ||
        Bit(a, 30);
    }
  }

  lemma Powers()
    ensures Pow2(0) == 1 && Pow2(1) == 2 && Pow2(2) == 4 && Pow2(3) == 8
    ensures Pow2(4) == 16 && Pow2(5) == 32 && Pow2(6) == 64 && Pow2(7) == 128
    ensures Pow2(8) == 256 && Pow2(9) == 512 && Pow2(10) == 1024 && Pow2(11) == 2048
    ensures Pow2(12) == 4096 && Pow2(13) == 8192 && Pow2(14) == 16384 && Pow2(15) == 32768
    ensures Pow2(16) == 65536 && Pow2(17) == 131072 && Pow2(18) == 262144 && Pow2(19) == 524288
    ensures Pow2(20) == 1048576 && Pow2(21) == 2097152 && Pow2(22) == 4194304 && Pow2(23) == 8388608
    ensures Pow2(24) == 16777216 && Pow2(25) == 33554432 && Pow2(26) == 67108864 && Pow2(27) == 134217728
    ensures Pow2(28) == 268435456 && Pow2(29) == 536870912 && Pow2(30) == 1073741824 && Pow2(31) == 2147483648
  {
    assert Pow2(8) == 256;
    assert Pow2(16) == 65536;
    assert Pow2(24) == 16777216;
    assert Pow2(31) == 2147483648;
  }

  lemma FlagBits()
    ensures forall i :: 0 <= i < 32 ==> (Bit(CLONE_NS_FLAGS, i) <==> i == 7 || i == 17 || 25 <= i <= 30)
  {
    Powers();
    forall i | 0 <= i < 32 ensures Bit(CLONE_NS_FLAGS, i) <==> i == 7 || i == 17 || 25 <= i <= 30 {
      assert i in {0, 1, 2, 3, 4, 5, 6, 7, 8, 9, 10, 11, 12, 13, 14, 15} ||
        i in {16, 17, 18, 19, 20, 21, 22, 23, 24, 25, 26, 27, 28, 29, 30, 31};
    }
  }

  lemma {:induction false} FirstMatchIs(deny: seq<Denied>, nr: Word, i: nat)
    requires i <= |deny| && forall j :: 0 <= j < i ==> deny[j].nr != nr
    ensures match FirstMatch(deny, nr, i)
      case None => forall j :: 0 <= j < |deny| ==> deny[j].nr != nr
      case Some(e) => exists k: nat :: FirstNamed(deny, nr, k) && deny[k].errno == e
    decreases |deny| - i
  {
    if i < |deny| {
      if deny[i].nr == nr { assert FirstNamed(deny, nr, i); } else { FirstMatchIs(deny, nr, i + 1); }
    }
  }

  lemma VerdictDecides(deny: seq<Denied>, c: Call)
    ensures Decides(deny, c, Verdict(deny, c))
  {
    FirstMatchIs(deny, c.nr, 0);
    NamespaceBits(c.arg0);
  }

  /** The errno of the first deny-list entry, from `i` on, that names the call. */
  function FirstMatch(deny: seq<Denied>, nr: Word, i: nat): Option<Half>
    decreases |deny| - i
  {
    if i >= |deny| then None else if deny[i].nr == nr then Some(deny[i].errno) else FirstMatch(deny, nr, i + 1)
  }

  /** The decision the filter is for. */
  function Verdict(deny: seq<Denied>, c: Call): Word {
    if c.arch != AUDIT_ARCH_X86_64 then RET_KILL_PROCESS
    else if c.nr >= X32_SYSCALL_BIT then Errno(ENOSYS)
    else match FirstMatch(deny, c.nr, 0)
      case Some(e) => Errno(e)
      case None => if c.nr == SYS_CLONE && SharesBit(c.arg0, CLONE_NS_FLAGS) then Errno(EPERM) else RET_ALLOW
  }

  lemma TailCorrect(deny: seq<Denied>, p: seq<Ins>, c: Call)
    requires Compiled(deny, p)
    ensures RunList(p, c, 6 + 2 * |deny|, c.nr) ==
      Some(if c.nr == SYS_CLONE && SharesBit(c.arg0, CLONE_NS_FLAGS) then Errno(EPERM) else RET_ALLOW)
  {
    var t := 6 + 2 * |deny|;
    forall j | 0 <= j < 5 ensures p[t + j] == TAIL[j] { assert p[t..][j] == p[t + j]; }
    assert p[t + 0] == TAIL[0] && p[t + 1] == TAIL[1] && p[t + 2] == TAIL[2] && p[t + 3] == TAIL[3];
    assert p[t + 4] == TAIL[4];
    assert RunList(p, c, t + 4, c.nr) == Some(RET_ALLOW) && RunList(p, c, t + 4, c.arg0) == Some(RET_ALLOW);
    assert RunList(p, c, t + 3, c.arg0) == Some(Errno(EPERM));
    assert RunList(p, c, t + 2, c.arg0) ==
      if SharesBit(c.arg0, CLONE_NS_FLAGS) then Some(Errno(EPERM)) else Some(RET_ALLOW);
    assert RunList(p, c, t + 1, c.nr) == RunList(p, c, t + 2, c.arg0);
  }

  lemma {:induction false} EntriesCorrect(deny: seq<Denied>, p: seq<Ins>, c: Call, i: nat)
    requires Compiled(deny, p) && i <= |deny|
    ensures RunList(p, c, 6 + 2 * i, c.nr) ==
      match FirstMatch(deny, c.nr, i)
      case Some(e) => Some(Errno(e))
      case None => Some(if c.nr == SYS_CLONE && SharesBit(c.arg0, CLONE_NS_FLAGS) then Errno(EPERM) else RET_ALLOW)
    decreases |deny| - i
  {
    if i == |deny| {
      TailCorrect(deny, p, c);
    } else {
      EntriesCorrect(deny, p, c, i + 1);
      EntryStep(deny, p, c, i);
    }
  }

  lemma EntryStep(deny: seq<Denied>, p: seq<Ins>, c: Call, i: nat)
    requires Compiled(deny, p) && i < |deny|
    ensures RunList(p, c, 6 + 2 * i, c.nr) ==
      if deny[i].nr == c.nr then Some(Errno(deny[i].errno)) else RunList(p, c, 6 + 2 * (i + 1), c.nr)
  {
    var t := 6 + 2 * i;
    assert p[t] == Ins(JEQ_K, 0, 1, deny[i].nr) && p[t + 1] == Ins(RET_K, 0, 0, Errno(deny[i].errno));
    assert RunList(p, c, t + 1, c.nr) == Some(Errno(deny[i].errno));
  }

  lemma HeadStep(deny: seq<Denied>, p: seq<Ins>, c: Call)
    requires Compiled(deny, p)
    ensures RunList(p, c, 0, 0) ==
      if c.arch != AUDIT_ARCH_X86_64 then Some(RET_KILL_PROCESS)
      else if c.nr >= X32_SYSCALL_BIT then Some(Errno(ENOSYS)) else RunList(p, c, 6, c.nr)
  {
    forall j | 0 <= j < 6 ensures p[j] == HEAD[j] { assert p[..6][j] == p[j]; }
    assert RunList(p, c, 5, c.nr) == Some(Errno(ENOSYS));
    assert RunList(p, c, 4, c.nr) == if c.nr >= X32_SYSCALL_BIT then Some(Errno(ENOSYS)) else RunList(p, c, 6, c.nr);
    assert RunList(p, c, 3, c.arch) == RunList(p, c, 4, c.nr);
    assert RunList(p, c, 2, c.arch) == Some(RET_KILL_PROCESS);
    assert RunList(p, c, 1, c.arch) ==
      if c.arch == AUDIT_ARCH_X86_64 then RunList(p, c, 3, c.arch) else Some(RET_KILL_PROCESS);
  }

  /** For every deny list and every call, the program returns the intended decision. */
  lemma FilterCorrect(deny: seq<Denied>, p: seq<Ins>, c: Call)
    requires Compiled(deny, p)
    ensures Run(Flat(p), c, 0, 0).Some? && Decides(deny, c, Run(Flat(p), c, 0, 0).value)
  {
    VerdictDecides(deny, c);
    BytesRunAsList(p, c, 0, 0);
    HeadStep(deny, p, c);
    EntriesCorrect(deny, p, c, 0);
  }

  /** Every jump of the program lands on an instruction after it. */
  lemma JumpsStayInside(deny: seq<Denied>, p: seq<Ins>, j: nat)
    requires Compiled(deny, p) && j < |p| && p[j].code in {JEQ_K, JGE_K, JSET_K}
    ensures j + 1 + p[j].jt < |p| && j + 1 + p[j].jf < |p|
  {
    if j < 6 {
      assert p[j] == p[..6][j] == HEAD[j];
    } else if j < 6 + 2 * |deny| {
      var i := (j - 6) / 2;
      assert deny[i].nr == deny[i].nr;
      assert j == 6 + 2 * i || j == 7 + 2 * i;
    } else {
      assert p[j] == p[6 + 2 * |deny|..][j - 6 - 2 * |deny|] == TAIL[j - 6 - 2 * |deny|];
    }
  }
}
