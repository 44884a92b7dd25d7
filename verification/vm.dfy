/** The execution engine: the image header, the VM state, the fetch and pop
    primitives, the effect of every opcode and syscall, and the dispatch loop.

    The image is an immutable byte sequence passed to every operation as
    `mem`; no instruction can write to it. Host effects go through a `Host`
    oracle: opening a path either succeeds or fails, and a successful write
    is appended to the state's log of written bytes. */
module Vm {
  import opened Bytes
  import opened Results
  import opened Arch

  /** Magic number followed by the only supported version. */
  const Header: seq<u8> := [0xF1, 0x0F, 0x0A, 0x00, 0x00, 0x00, 0x00, 0x00]
  /** Magic, version and entry point. */
  const HeaderSize: nat := 12

  /** Selectors of the `Syscall` instruction. */
  const SysOpen: u32 := 0
  const SysWrite: u32 := 1

  /** What a descriptor is bound to: a standard stream or a file opened by path. */
  datatype Handle = Stdin | Stdout | Stderr | File(path: seq<u8>)

  /** One successful `write` syscall: the descriptor and the bytes handed to it. */
  datatype Written = Written(fd: u32, bytes: seq<u8>)

  datatype State = State(
    ip: nat,                  // byte offset of the next fetch
    stack: seq<u32>,          // operand stack, top at the end
    fdt: map<u32, Handle>,    // descriptor table
    nextFd: u32,              // next descriptor `open` hands out
    log: seq<Written>         // writes performed so far
  )

  /** The descriptor table a fresh VM starts with: the three standard streams. */
  const StandardFds: map<u32, Handle> := map[0 := Stdin, 1 := Stdout, 2 := Stderr]

  /** The host file system, as far as the engine can observe it. */
  datatype Host = Host(canOpen: seq<u8> -> bool, canWrite: (Handle, seq<u8>) -> bool)

  datatype Error =
    | TruncatedImage              // the header is indexed past the end of the image
    | BadMagic
    | BadVersion
    | OutOfBounds                 // fewer than four bytes left at the fetch position
    | StackUnderflow
    | Decoding(cause: DecodeError) // the opcode word names no instruction
    | UnknownSyscall(code: u32)
    | DivisionByZero
    | PathOutOfRange              // `open` with a path offset past the image end
    | OpenFailed(path: seq<u8>)
    | InputBufferOutOfRange
    | UnknownFd
    | WriteFailed(fd: u32)

  // ---------------------------------------------------------------- construction

  /** The first header position whose check fails, scanning from `i` in the
      order the constructor indexes the image: bytes 0..7 are compared with
      the header, bytes 8..11 only have to exist. 12 when all checks pass. */
  function FirstBadHeaderByte(image: seq<u8>, i: nat): (j: nat)
    requires i <= HeaderSize
    decreases HeaderSize - i
    ensures i <= j <= HeaderSize
    ensures forall k :: i <= k < j ==> k < |image| && (k < |Header| ==> image[k] == Header[k])
    ensures j < HeaderSize ==> j >= |image| || (j < |Header| && image[j] != Header[j])
  {
    if i == HeaderSize then i
    else if i >= |image| then i
    else if i < |Header| && image[i] != Header[i] then i
    else FirstBadHeaderByte(image, i + 1)
  }

  /** `VM::new`: check magic and version, read the big-endian entry point
      from bytes 8..11, start with an empty stack and the three standard
      descriptors. */
  function New(image: seq<u8>): (r: Result<State, Error>)
    ensures r.Ok? <==> |image| >= HeaderSize && image[..|Header|] == Header
    ensures r.Ok? ==>
      && r.value.ip < WORD && ToBigEndian(r.value.ip) == image[8..12]
      && r.value.stack == []
      && r.value.fdt == StandardFds
      && r.value.nextFd == 3
      && r.value.log == []
    ensures r.Err? ==> r.error in {TruncatedImage, BadMagic, BadVersion}
    ensures r == Err(BadMagic) <==> exists k :: 0 <= k < 4 && k < |image| && image[k] != Header[k]
    ensures r == Err(BadVersion) <==>
      && (forall k :: 0 <= k < 4 && k < |image| ==> image[k] == Header[k])
      && (exists k :: 4 <= k < |Header| && k < |image| && image[k] != Header[k])
    ensures r == Err(TruncatedImage) <==>
      |image| < HeaderSize && forall k :: 0 <= k < |Header| && k < |image| ==> image[k] == Header[k]
  {
    var j := FirstBadHeaderByte(image, 0);
    if j < HeaderSize then
      assert |image| >= HeaderSize ==> image[..|Header|] != Header by {
        if |image| >= HeaderSize { assert image[..|Header|][j] != Header[j]; }
      }
      Err(if j >= |image| then TruncatedImage else if j < 4 then BadMagic else BadVersion)
    else
      assert image[..|Header|] == Header;
      assert image[..4] == Header[..4];
      var entry := image[8..12];
      ToFromBigEndian(entry);
      Ok(State(FromBigEndian(entry), [], StandardFds, 3, []))
  }

  // ---------------------------------------------------------------- primitives

  /** `fetch`: the big-endian word at `ip`, with `ip` advanced past it. */
  function Fetch(mem: seq<u8>, st: State): (r: Result<(u32, State), Error>)
    ensures r.Err? <==> st.ip + 4 > |mem|
    ensures r.Err? ==> r.error == OutOfBounds
    ensures r.Ok? ==>
      && ToBigEndian(r.value.0) == mem[st.ip..st.ip + 4]
      && r.value.1 == st.(ip := st.ip + 4)
  {
    if st.ip + 4 > |mem| then Err(OutOfBounds)
    else
      var bytes := mem[st.ip..st.ip + 4];
      ToFromBigEndian(bytes);
      Ok((FromBigEndian(bytes), st.(ip := st.ip + 4)))
  }

  /** `pop`: the top of the stack and the state without it. */
  function Pop(st: State): (r: Result<(u32, State), Error>)
    ensures r.Err? <==> st.stack == []
    ensures r.Err? ==> r.error == StackUnderflow
    ensures r.Ok? ==>
      && r.value.1.stack + [r.value.0] == st.stack
      && r.value.1 == st.(stack := r.value.1.stack)
  {
    if st.stack == [] then Err(StackUnderflow)
    else Ok((st.stack[|st.stack| - 1], st.(stack := st.stack[..|st.stack| - 1])))
  }

  function Push(st: State, v: u32): State
  {
    st.(stack := st.stack + [v])
  }

  // ---------------------------------------------------------------- instructions

  /** IAdd: the sum modulo 2^32 (it wraps at most once). */
  function WrappingAdd(a: u32, b: u32): (r: u32)
    ensures r == a + b || r == a + b - WORD
    ensures a + b < WORD ==> r == a + b
  {
    WrapSum(a + b);
    Wrap(a + b)
  }

  /** ISub: `a - b` modulo 2^32 (it wraps at most once). */
  function WrappingSub(a: u32, b: u32): (r: u32)
    ensures r == a - b || r == a - b + WORD
    ensures b <= a ==> r == a - b
  {
    WrapDifference(a - b);
    Wrap(a - b)
  }

  /** IMul: the product modulo 2^32. */
  function WrappingMul(a: u32, b: u32): (r: u32)
    ensures Congruent(r, a * b)
    ensures a * b < WORD ==> r == a * b
  {
    WrapProperties(a * b);
    Wrap(a * b)
  }

  /** IDiv: the truncated quotient; a zero divisor is an error. */
  function CheckedDiv(a: u32, b: u32): (r: Result<u32, Error>)
    ensures r.Err? <==> b == 0
    ensures r.Err? ==> r.error == DivisionByZero
    ensures r.Ok? ==> r.value * b <= a < r.value * b + b
  {
    if b == 0 then Err(DivisionByZero)
    else
      DivBounds(a, b);
      Ok(a / b)
  }

  /** The value an arithmetic instruction pushes for operands `a` (pushed
      first) and `b` (on top). */
  function Arith(op: Opcode, a: u32, b: u32): (r: Result<u32, Error>)
    requires op.IsArith()
  {
    match op
    case IAdd => Ok(WrappingAdd(a, b))
    case IMul => Ok(WrappingMul(a, b))
    case ISub => Ok(WrappingSub(a, b))
    case IDiv => CheckedDiv(a, b)
  }

  /** IConst: push the immediate word that follows the opcode. */
  function ExecConst(mem: seq<u8>, st: State): (r: Result<State, Error>)
    ensures r.Err? <==> st.ip + 4 > |mem|
    ensures r.Err? ==> r.error == OutOfBounds
    ensures r.Ok? ==>
      && |r.value.stack| == |st.stack| + 1
      && r.value.stack[..|st.stack|] == st.stack
      && ToBigEndian(r.value.stack[|st.stack|]) == mem[st.ip..st.ip + 4]
      && r.value == st.(ip := st.ip + 4, stack := r.value.stack)
  {
    var (v, s1) :- Fetch(mem, st);
    assert (s1.stack + [v])[..|st.stack|] == st.stack;
    Ok(Push(s1, v))
  }

  /** JumpIfZero: pop first, then always consume the target word; jump to it
      only when the popped value is zero. */
  function ExecJumpIfZero(mem: seq<u8>, st: State): (r: Result<State, Error>)
    ensures st.stack == [] ==> r == Err(StackUnderflow)
    ensures st.stack != [] && st.ip + 4 > |mem| ==> r == Err(OutOfBounds)
    ensures r.Ok? <==> st.stack != [] && st.ip + 4 <= |mem|
    ensures r.Ok? ==>
      && r.value.stack + [st.stack[|st.stack| - 1]] == st.stack
      && (st.stack[|st.stack| - 1] == 0 ==> r.value.ip < WORD && ToBigEndian(r.value.ip) == mem[st.ip..st.ip + 4])
      && (st.stack[|st.stack| - 1] != 0 ==> r.value.ip == st.ip + 4)
      && r.value == st.(ip := r.value.ip, stack := r.value.stack)
  {
    var (a, s1) :- Pop(st);
    var (dest, s2) :- Fetch(mem, s1);
    Ok(if a == 0 then s2.(ip := dest) else s2)
  }

  /** IAdd, IMul, ISub, IDiv: pop `b`, pop `a`, push `a op b`. */
  function ExecArith(op: Opcode, st: State): (r: Result<State, Error>)
    requires op.IsArith()
    ensures |st.stack| < 2 ==> r == Err(StackUnderflow)
    ensures |st.stack| >= 2 && op == IDiv && st.stack[|st.stack| - 1] == 0 ==> r == Err(DivisionByZero)
    ensures r.Ok? <==> |st.stack| >= 2 && !(op == IDiv && st.stack[|st.stack| - 1] == 0)
    ensures r.Ok? ==>
      var n := |st.stack|;
      && n >= 2
      && |r.value.stack| == n - 1
      && r.value.stack[..n - 2] == st.stack[..n - 2]
      && Arith(op, st.stack[n - 2], st.stack[n - 1]) == Ok(r.value.stack[n - 2])
      && r.value == st.(stack := r.value.stack)
  {
    var (b, s1) :- Pop(st);
    var (a, s2) :- Pop(s1);
    var v :- Arith(op, a, b);
    assert s2.stack == st.stack[..|st.stack| - 2];
    Ok(Push(s2, v))
  }

  /** Dup: pop `a`, push it twice. */
  function ExecDup(st: State): (r: Result<State, Error>)
    ensures r.Err? <==> st.stack == []
    ensures r.Err? ==> r.error == StackUnderflow
    ensures r.Ok? ==> r.value == st.(stack := st.stack + [st.stack[|st.stack| - 1]])
  {
    var (a, s1) :- Pop(st);
    Ok(Push(Push(s1, a), a))
  }

  // ---------------------------------------------------------------- syscalls

  /** The NUL-terminated path starting at offset `i`: the bytes up to the
      first zero byte at or after `i`, or up to the image end if there is none. */
  function CString(mem: seq<u8>, i: nat): (path: seq<u8>)
    requires i <= |mem|
    decreases |mem| - i
    ensures i + |path| <= |mem| && path == mem[i..i + |path|]
    ensures forall k :: 0 <= k < |path| ==> path[k] != 0
    ensures i + |path| == |mem| || mem[i + |path|] == 0
  {
    if i == |mem| || mem[i] == 0 then []
    else [mem[i]] + CString(mem, i + 1)
  }

  /** Syscall 0, `open`: pop the path offset, open the path and bind it to
      the next descriptor, which is pushed; the counter then advances
      (wrapping at 2^32). */
  function Open(mem: seq<u8>, host: Host, st: State): (r: Result<State, Error>)
    ensures st.stack == [] ==> r == Err(StackUnderflow)
    ensures st.stack != [] && st.stack[|st.stack| - 1] > |mem| ==> r == Err(PathOutOfRange)
    ensures st.stack != [] && st.stack[|st.stack| - 1] <= |mem| && !host.canOpen(CString(mem, st.stack[|st.stack| - 1])) ==>
      r == Err(OpenFailed(CString(mem, st.stack[|st.stack| - 1])))
    ensures r.Ok? <==>
      && st.stack != []
      && st.stack[|st.stack| - 1] <= |mem|
      && host.canOpen(CString(mem, st.stack[|st.stack| - 1]))
    ensures r.Ok? ==>
      var path := CString(mem, st.stack[|st.stack| - 1]);
      && r.value.stack == st.stack[..|st.stack| - 1] + [st.nextFd]
      && r.value.fdt.Keys == st.fdt.Keys + {st.nextFd}
      && r.value.fdt[st.nextFd] == File(path)
      && (forall fd :: fd in st.fdt && fd != st.nextFd ==> r.value.fdt[fd] == st.fdt[fd])
      && (st.nextFd + 1 < WORD ==> r.value.nextFd == st.nextFd + 1)
      && (st.nextFd + 1 == WORD ==> r.value.nextFd == 0)
      && r.value.ip == st.ip
      && r.value.log == st.log
  {
    var (buf, s1) :- Pop(st);
    if buf > |mem| then Err(PathOutOfRange)
    else
      var path := CString(mem, buf);
      if !host.canOpen(path) then Err(OpenFailed(path))
      else
        var fd := s1.nextFd;
        Ok(s1.(fdt := s1.fdt[fd := File(path)], stack := s1.stack + [fd], nextFd := Wrap(fd + 1)))
  }

  /** `self.memory.get(buf..(buf + len))` where the end offset is the
      wrapped 32-bit sum: an overflowing sum makes the range empty-reversed
      and so out of range. */
  function InputBuffer(mem: seq<u8>, buf: u32, len: u32): (r: Result<seq<u8>, Error>)
    ensures r.Ok? ==> buf + len <= |mem| && r.value == mem[buf..buf + len]
    ensures r.Err? ==> r.error == InputBufferOutOfRange
    ensures r.Ok? <==> buf + len < WORD && buf + len <= |mem|
  {
    WrapSum(buf + len);
    var end := Wrap(buf + len);
    if buf <= end <= |mem| then Ok(mem[buf..end])
    else Err(InputBufferOutOfRange)
  }

  /** Syscall 1, `write`: pop the length, then the buffer offset, then the
      descriptor; check the buffer range before looking the descriptor up. */
  function Write(mem: seq<u8>, host: Host, st: State): (r: Result<State, Error>)
    ensures |st.stack| < 3 ==> r == Err(StackUnderflow)
    ensures r.Ok? ==>
      var n := |st.stack|;
      var fd, buf, len := st.stack[n - 3], st.stack[n - 2], st.stack[n - 1];
      && n >= 3
      && buf + len < WORD
      && buf + len <= |mem|
      && fd in st.fdt
      && host.canWrite(st.fdt[fd], mem[buf..buf + len])
      && r.value == st.(stack := st.stack[..n - 3], log := st.log + [Written(fd, mem[buf..buf + len])])
    ensures |st.stack| >= 3 ==>
      var n := |st.stack|;
      var fd, buf, len := st.stack[n - 3], st.stack[n - 2], st.stack[n - 1];
      && (buf + len > |mem| || buf + len >= WORD ==> r == Err(InputBufferOutOfRange))
      && (buf + len < WORD && buf + len <= |mem| && fd !in st.fdt ==> r == Err(UnknownFd))
      && (buf + len < WORD && buf + len <= |mem| && fd in st.fdt && host.canWrite(st.fdt[fd], mem[buf..buf + len]) ==> r.Ok?)
      && (buf + len < WORD && buf + len <= |mem| && fd in st.fdt && !host.canWrite(st.fdt[fd], mem[buf..buf + len]) ==>
            r == Err(WriteFailed(fd)))
  {
    var (len, s1) :- Pop(st);
    var (buf, s2) :- Pop(s1);
    var (fd, s3) :- Pop(s2);
    var bytes :- InputBuffer(mem, buf, len);
    if fd !in s3.fdt then Err(UnknownFd)
    else if !host.canWrite(s3.fdt[fd], bytes) then Err(WriteFailed(fd))
    else
      assert s3.stack == st.stack[..|st.stack| - 3];
      Ok(s3.(log := s3.log + [Written(fd, bytes)]))
  }

  /** Syscall: fetch the selector word and dispatch on it. */
  function ExecSyscall(mem: seq<u8>, host: Host, st: State): (r: Result<State, Error>)
    ensures st.ip + 4 > |mem| ==> r == Err(OutOfBounds)
    ensures st.ip + 4 <= |mem| ==>
      var sel := FromBigEndian(mem[st.ip..st.ip + 4]);
      var s1 := st.(ip := st.ip + 4);
      && (sel == SysOpen ==> r == Open(mem, host, s1))
      && (sel == SysWrite ==> r == Write(mem, host, s1))
      && (sel != SysOpen && sel != SysWrite ==> r == Err(UnknownSyscall(sel)))
  {
    var (sel, s1) :- Fetch(mem, st);
    if sel == SysOpen then Open(mem, host, s1)
    else if sel == SysWrite then Write(mem, host, s1)
    else Err(UnknownSyscall(sel))
  }

  // ---------------------------------------------------------------- dispatch

  datatype StepResult = Running(st: State) | Halted(st: State) | Faulted(error: Error)

  function Continue(r: Result<State, Error>): StepResult
  {
    match r
    case Ok(s) => Running(s)
    case Err(e) => Faulted(e)
  }

  /** The effect of one decoded instruction; `st.ip` is already past the
      opcode. Only `Halt` stops the loop, and only `Syscall` can touch the
      descriptor table, the descriptor counter or the write log. */
  function Dispatch(mem: seq<u8>, host: Host, op: Opcode, st: State): (r: StepResult)
    ensures r.Halted? <==> op == Halt
    ensures r.Halted? ==> r.st == st
    ensures op != Syscall && r.Running? ==>
      r.st.fdt == st.fdt && r.st.nextFd == st.nextFd && r.st.log == st.log
  {
    match op
    case Halt => Halted(st)
    case IConst => Continue(ExecConst(mem, st))
    case Syscall => Continue(ExecSyscall(mem, host, st))
    case JumpIfZero => Continue(ExecJumpIfZero(mem, st))
    case IAdd => Continue(ExecArith(op, st))
    case IMul => Continue(ExecArith(op, st))
    case ISub => Continue(ExecArith(op, st))
    case IDiv => Continue(ExecArith(op, st))
    case Dup => Continue(ExecDup(st))
  }

  /** One iteration of the `execute` loop body: fetch, decode, dispatch. It
      halts exactly on the encoding of `Halt`, and a word that is no opcode
      faults carrying that word. */
  function Step(mem: seq<u8>, host: Host, st: State): (r: StepResult)
    ensures st.ip + 4 > |mem| ==> r == Faulted(OutOfBounds)
    ensures r.Halted? <==> st.ip + 4 <= |mem| && mem[st.ip..st.ip + 4] == ToBigEndian(Encode(Halt))
    ensures r.Halted? ==> r.st == st.(ip := st.ip + 4)
    ensures st.ip + 4 <= |mem| && FromBigEndian(mem[st.ip..st.ip + 4]) !in Codes ==>
      r == Faulted(Decoding(UnknownOpcode(FromBigEndian(mem[st.ip..st.ip + 4]))))
  {
    match Fetch(mem, st)
    case Err(e) => Faulted(e)
    case Ok((code, s1)) =>
      FromToBigEndian(code);
      ToBigEndianInjective(code, Encode(Halt));
      DecodeEncode(Halt);
      match Decode(code)
      case Err(e) => Faulted(Decoding(e))
      case Ok(op) => EncodeDecode(code); Dispatch(mem, host, op, s1)
  }

  /** How a bounded run ends. `Finished` is the source's `Ok(())`, reached by
      `Halt` or by the instruction pointer leaving the image; `Failed` keeps
      the state at the start of the faulting instruction; `OutOfFuel` means
      the bound was reached first. */
  datatype RunResult = Finished(st: State) | Failed(error: Error, at: State) | OutOfFuel(st: State)

  /** The `execute` loop for loop body `step` over an image of `size` bytes,
      bounded to `fuel` iterations: it stops without error once the
      instruction pointer has left the image. */
  function Loop(step: State -> StepResult, size: nat, st: State, fuel: nat): (r: RunResult)
    decreases fuel
    ensures st.ip >= size ==> r == Finished(st)
    ensures r.Failed? ==> r.at.ip < size && step(r.at) == Faulted(r.error)
    ensures r.OutOfFuel? ==> r.st.ip < size
  {
    if st.ip >= size then Finished(st)
    else if fuel == 0 then OutOfFuel(st)
    else
      match step(st)
      case Halted(s) => Finished(s)
      case Faulted(e) => Failed(e, st)
      case Running(s) => Loop(step, size, s, fuel - 1)
  }

  /** `execute`, bounded to `fuel` instructions. A failed run stopped at an
      instruction inside the image whose step raises the reported error. */
  function Run(mem: seq<u8>, host: Host, st: State, fuel: nat): (r: RunResult)
    ensures st.ip >= |mem| ==> r == Finished(st)
    ensures r.Failed? ==> r.at.ip < |mem| && Step(mem, host, r.at) == Faulted(r.error)
  {
    Loop(s => Step(mem, host, s), |mem|, st, fuel)
  }

  /** Construct the VM from an image and run it. */
  function Boot(image: seq<u8>, host: Host, fuel: nat): Result<RunResult, Error>
  {
    var st :- New(image);
    Ok(Run(image, host, st, fuel))
  }
}
