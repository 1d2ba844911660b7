// The classic BPF filter the agent installs before it starts a tool.
module Seccomp {
  import opened Common

  /** `struct seccomp_data`: system call number, architecture, instruction pointer, six arguments. */
  datatype Call = Call(nr: u32, arch: u32, ip: u64, args: seq<u64>) {
    predicate Valid() { |args| == 6 }
  }

  /** The two 32-bit words of a 64-bit field, low word first. */
  function Halves(x: u64): seq<u32> { [x % U32_LIMIT, x / U32_LIMIT] }

  function Words(d: Call): (w: seq<u32>)
    requires d.Valid()
    ensures |w| == 16
  {
    [d.nr, d.arch] + Halves(d.ip) + Halves(d.args[0]) + Halves(d.args[1]) + Halves(d.args[2]) +
    Halves(d.args[3]) + Halves(d.args[4]) + Halves(d.args[5])
  }

  datatype Instruction =
    | LoadAbs(k: u32)
    | JumpEq(k: u32, jt: byte, jf: byte)
    | JumpGe(k: u32, jt: byte, jf: byte)
    | Ret(k: u32)

  /** Runs from `pc` with `acc` in the accumulator; nothing when the program leaves its own bounds. */
  function Run(prog: seq<Instruction>, d: Call, pc: nat, acc: u32): Option<u32>
    requires d.Valid()
    decreases |prog| - pc
  {
    if pc >= |prog| then None
    else
      match prog[pc]
      case LoadAbs(k) => if k % 4 == 0 && k < 64 then Run(prog, d, pc + 1, Words(d)[k / 4]) else None
      case JumpEq(k, jt, jf) => Run(prog, d, pc + 1 + if acc == k then jt as int else jf as int, acc)
      case JumpGe(k, jt, jf) => Run(prog, d, pc + 1 + if acc >= k then jt as int else jf as int, acc)
      case Ret(k) => Some(k)
  }

  /** What the kernel asks of a filter before it installs it. */
  predicate Admissible(prog: seq<Instruction>) {
    && prog != [] && prog[|prog| - 1].Ret?
    && forall pc :: 0 <= pc < |prog| ==> InBounds(prog[pc], |prog| - pc - 1)
  }

  predicate InBounds(i: Instruction, left: nat) {
    match i
    case LoadAbs(k) => k % 4 == 0 && k < 64
    case JumpEq(_, jt, jf) => (jt as int) < left && (jf as int) < left
    case JumpGe(_, jt, jf) => (jt as int) < left && (jf as int) < left
    case Ret(_) => true
  }

  /** Instructions executed from `pc` on, the return included. */
  function Steps(prog: seq<Instruction>, d: Call, pc: nat, acc: u32): nat
    requires d.Valid()
    decreases |prog| - pc
  {
    if pc >= |prog| then 0
    else
      match prog[pc]
      case LoadAbs(k) => 1 + if k % 4 == 0 && k < 64 then Steps(prog, d, pc + 1, Words(d)[k / 4]) else 0
      case JumpEq(k, jt, jf) => 1 + Steps(prog, d, pc + 1 + if acc == k then jt as int else jf as int, acc)
      case JumpGe(k, jt, jf) => 1 + Steps(prog, d, pc + 1 + if acc >= k then jt as int else jf as int, acc)
      case Ret(_) => 1
  }

  /**
   * An admissible filter answers every system call, with one of its own return values and after no more
   * instructions than it has.
   */
  lemma {:induction false} Answers(prog: seq<Instruction>, d: Call, pc: nat, acc: u32)
    requires d.Valid() && Admissible(prog) && pc < |prog|
    ensures Run(prog, d, pc, acc).Some? && Ret(Run(prog, d, pc, acc).value) in prog
    ensures Steps(prog, d, pc, acc) <= |prog| - pc
    decreases |prog| - pc
  {
    assert InBounds(prog[pc], |prog| - pc - 1);
    match prog[pc]
    case LoadAbs(k) => Answers(prog, d, pc + 1, Words(d)[k / 4]);
    case JumpEq(k, jt, jf) => Answers(prog, d, pc + 1 + if acc == k then jt as int else jf as int, acc);
    case JumpGe(k, jt, jf) => Answers(prog, d, pc + 1 + if acc >= k then jt as int else jf as int, acc);
    case Ret(_) =>
  }

  // ---- The filter ----

  const AUDIT_ARCH_X86_64: u32 := 0xC000_003E
  const X32_SYSCALL_BIT: u32 := 0x4000_0000
  const AF_VSOCK: u32 := 40
  const SYS_SOCKET: u32 := 41
  const SYS_PTRACE: u32 := 101
  const SYS_IO_URING_SETUP: u32 := 425
  const SYS_IO_URING_ENTER: u32 := 426
  const SYS_IO_URING_REGISTER: u32 := 427
  const SYS_PIDFD_OPEN: u32 := 434
  const SYS_PIDFD_GETFD: u32 := 438

  const ALLOW: u32 := 0x7FFF_0000
  const KILL: u32 := 0x8000_0000
  // SECCOMP_RET_ERRNO with EACCES, which is 13.
  const DENY: u32 := 0x0005_0000 + 13

  const OFF_NR: u32 := 0
  const OFF_ARCH: u32 := 4
  const OFF_ARGS_0: u32 := 16

  function Filter(): (prog: seq<Instruction>)
    ensures |prog| == 16
  {
    [ LoadAbs(OFF_ARCH),
      JumpEq(AUDIT_ARCH_X86_64, 0, 12),
      LoadAbs(OFF_NR),
      JumpGe(X32_SYSCALL_BIT, 10, 0),
      JumpEq(SYS_IO_URING_SETUP, 8, 0),
      JumpEq(SYS_IO_URING_ENTER, 7, 0),
      JumpEq(SYS_IO_URING_REGISTER, 6, 0),
      JumpEq(SYS_PIDFD_OPEN, 5, 0),
      JumpEq(SYS_PIDFD_GETFD, 4, 0),
      JumpEq(SYS_PTRACE, 3, 0),
      JumpEq(SYS_SOCKET, 0, 4),
      LoadAbs(OFF_ARGS_0),
      JumpEq(AF_VSOCK, 0, 2),
      Ret(DENY),
      Ret(KILL),
      Ret(ALLOW) ]
  }

  lemma FilterAdmissible()
    ensures Admissible(Filter())
  {
    var prog := Filter();
    forall pc | 0 <= pc < |prog| ensures InBounds(prog[pc], |prog| - pc - 1) {
    }
  }

  /** The calls that reach another process or open a ring for asynchronous calls. */
  predicate Denied(nr: u32) {
    || nr == SYS_IO_URING_SETUP || nr == SYS_IO_URING_ENTER || nr == SYS_IO_URING_REGISTER
    || nr == SYS_PIDFD_OPEN || nr == SYS_PIDFD_GETFD || nr == SYS_PTRACE
  }

  /** `socket(AF_VSOCK, ...)`: the kernel reads the domain as a 32-bit int. */
  predicate OpensVsock(d: Call)
    requires d.Valid()
  {
    d.nr == SYS_SOCKET && d.args[0] % U32_LIMIT == AF_VSOCK
  }

  lemma Returns(d: Call, acc: u32)
    requires d.Valid()
    ensures Run(Filter(), d, 13, acc) == Some(DENY)
    ensures Run(Filter(), d, 14, acc) == Some(KILL)
    ensures Run(Filter(), d, 15, acc) == Some(ALLOW)
  {
  }

  lemma SocketTail(d: Call)
    requires d.Valid()
    ensures Run(Filter(), d, 10, d.nr) == Some(if OpensVsock(d) then DENY else ALLOW)
  {
    var domain := d.args[0] % U32_LIMIT;
    assert Words(d)[4] == domain;
    Returns(d, d.nr);
    Returns(d, domain);
    assert Run(Filter(), d, 12, domain) == Some(if domain == AF_VSOCK then DENY else ALLOW);
    assert Run(Filter(), d, 11, d.nr) == Run(Filter(), d, 12, domain);
  }

  /** One comparison of the list that jumps to instruction 13 on a match. */
  lemma DenyStep(d: Call, pc: nat, nr: u32)
    requires d.Valid() && 4 <= pc <= 9 && Filter()[pc] == JumpEq(nr, 12 - pc, 0)
    ensures Run(Filter(), d, pc, d.nr) == if d.nr == nr then Some(DENY) else Run(Filter(), d, pc + 1, d.nr)
  {
    Returns(d, d.nr);
  }

  lemma NumberTail(d: Call)
    requires d.Valid()
    ensures Run(Filter(), d, 4, d.nr) == Some(if Denied(d.nr) || OpensVsock(d) then DENY else ALLOW)
  {
    SocketTail(d);
    DenyStep(d, 9, SYS_PTRACE);
    DenyStep(d, 8, SYS_PIDFD_GETFD);
    DenyStep(d, 7, SYS_PIDFD_OPEN);
    DenyStep(d, 6, SYS_IO_URING_REGISTER);
    DenyStep(d, 5, SYS_IO_URING_ENTER);
    DenyStep(d, 4, SYS_IO_URING_SETUP);
  }

  /** The decision of the sixteen instructions, for every architecture, call number and argument. */
  lemma FilterDecides(d: Call)
    requires d.Valid()
    ensures Run(Filter(), d, 0, 0) ==
              Some(if d.arch != AUDIT_ARCH_X86_64 || d.nr >= X32_SYSCALL_BIT then KILL
                   else if Denied(d.nr) || OpensVsock(d) then DENY
                   else ALLOW)
  {
    NumberTail(d);
    Returns(d, d.arch);
    Returns(d, d.nr);
    assert Words(d)[0] == d.nr && Words(d)[1] == d.arch;
    assert Run(Filter(), d, 3, d.nr) == if d.nr >= X32_SYSCALL_BIT then Some(KILL) else Run(Filter(), d, 4, d.nr);
    assert Run(Filter(), d, 2, d.arch) == Run(Filter(), d, 3, d.nr);
    assert Run(Filter(), d, 1, d.arch) == if d.arch == AUDIT_ARCH_X86_64
        then Run(Filter(), d, 2, d.arch) else Some(KILL);
  }
}
