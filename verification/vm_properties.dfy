/** Properties of the execution engine that relate several operations: the
    effect of a whole fetch-decode-execute step for each opcode, how the
    instruction pointer may move, the descriptor-table invariant, and the
    behaviour of the bounded run. */
module VmProperties {
  import opened Bytes
  import opened Results
  import opened Arch
  import opened Vm

  /** The image holds the big-endian encoding of word `w` at offset `i`. */
  predicate WordAt(mem: seq<u8>, i: nat, w: int)
  {
    0 <= w < WORD && i + 4 <= |mem| && mem[i..i + 4] == ToBigEndian(w)
  }

  /** Fetching at an offset that holds `w` yields exactly `w`. */
  lemma FetchWordAt(mem: seq<u8>, st: State, w: int)
    requires WordAt(mem, st.ip, w)
    ensures Fetch(mem, st) == Ok((w, st.(ip := st.ip + 4)))
  {
    var v := Fetch(mem, st).value.0;
    ToBigEndianInjective(v, w);
  }

  /** `pop` undoes a push: it returns the pushed value and the state from
      before the push. */
  lemma PopPush(st: State, v: u32)
    ensures Pop(Push(st, v)) == Ok((v, st))
  {
    assert (st.stack + [v])[..|st.stack|] == st.stack;
  }

  /** A step at an encoded opcode runs exactly that opcode's effect with the
      instruction pointer already past it. */
  lemma StepDecodes(mem: seq<u8>, host: Host, st: State, op: Opcode)
    requires WordAt(mem, st.ip, Encode(op))
    ensures Step(mem, host, st) == Dispatch(mem, host, op, st.(ip := st.ip + 4))
  {
    FetchWordAt(mem, st, Encode(op));
    DecodeEncode(op);
  }

  /** A word that is no opcode stops the machine with an error naming it. */
  lemma StepUnknownOpcode(mem: seq<u8>, host: Host, st: State, c: u32)
    requires WordAt(mem, st.ip, c) && c !in Codes
    ensures Step(mem, host, st) == Faulted(Decoding(UnknownOpcode(c)))
  {
    FetchWordAt(mem, st, c);
  }

  /** Fewer than four bytes left at the instruction pointer is an error. */
  lemma StepOutOfBounds(mem: seq<u8>, host: Host, st: State)
    requires st.ip + 4 > |mem|
    ensures Step(mem, host, st) == Faulted(OutOfBounds)
  {
  }

  lemma StepHalt(mem: seq<u8>, host: Host, st: State)
    requires WordAt(mem, st.ip, Encode(Halt))
    ensures Step(mem, host, st) == Halted(st.(ip := st.ip + 4))
  {
    StepDecodes(mem, host, st, Halt);
  }

  lemma StepConst(mem: seq<u8>, host: Host, st: State, v: u32)
    requires WordAt(mem, st.ip, Encode(IConst)) && WordAt(mem, st.ip + 4, v)
    ensures Step(mem, host, st) == Running(st.(ip := st.ip + 8, stack := st.stack + [v]))
  {
    StepDecodes(mem, host, st, IConst);
    FetchWordAt(mem, st.(ip := st.ip + 4), v);
  }

  /** Binary arithmetic takes `b` from the top and `a` from below it, and
      replaces both with `a op b`. */
  lemma StepArith(mem: seq<u8>, host: Host, st: State, op: Opcode, s: seq<u32>, a: u32, b: u32)
    requires op.IsArith() && WordAt(mem, st.ip, Encode(op))
    requires st.stack == s + [a, b]
    requires op != IDiv || b != 0
    ensures Step(mem, host, st) == Running(st.(ip := st.ip + 4, stack := s + [Arith(op, a, b).value]))
  {
    StepDecodes(mem, host, st, op);
    var s1 := st.(ip := st.ip + 4);
    assert s1.stack[..|s1.stack| - 2] == s;
    assert s1.stack[|s1.stack| - 2] == a && s1.stack[|s1.stack| - 1] == b;
    var r := ExecArith(op, s1);
    assert r.Ok?;
    assert r.value.stack == s + [r.value.stack[|s|]];
  }

  lemma StepArithUnderflow(mem: seq<u8>, host: Host, st: State, op: Opcode)
    requires op.IsArith() && WordAt(mem, st.ip, Encode(op)) && |st.stack| < 2
    ensures Step(mem, host, st) == Faulted(StackUnderflow)
  {
    StepDecodes(mem, host, st, op);
  }

  lemma StepDivideByZero(mem: seq<u8>, host: Host, st: State, s: seq<u32>, a: u32)
    requires WordAt(mem, st.ip, Encode(IDiv)) && st.stack == s + [a, 0]
    ensures Step(mem, host, st) == Faulted(DivisionByZero)
  {
    StepDecodes(mem, host, st, IDiv);
  }

  lemma StepDup(mem: seq<u8>, host: Host, st: State, s: seq<u32>, a: u32)
    requires WordAt(mem, st.ip, Encode(Dup)) && st.stack == s + [a]
    ensures Step(mem, host, st) == Running(st.(ip := st.ip + 4, stack := s + [a, a]))
  {
    StepDecodes(mem, host, st, Dup);
  }

  lemma StepDupUnderflow(mem: seq<u8>, host: Host, st: State)
    requires WordAt(mem, st.ip, Encode(Dup)) && st.stack == []
    ensures Step(mem, host, st) == Faulted(StackUnderflow)
  {
    StepDecodes(mem, host, st, Dup);
  }

  /** The jump target word is consumed whether or not the jump is taken. */
  lemma StepJumpIfZero(mem: seq<u8>, host: Host, st: State, s: seq<u32>, a: u32, target: u32)
    requires WordAt(mem, st.ip, Encode(JumpIfZero)) && WordAt(mem, st.ip + 4, target)
    requires st.stack == s + [a]
    ensures Step(mem, host, st) == Running(st.(ip := if a == 0 then target else st.ip + 8, stack := s))
  {
    StepDecodes(mem, host, st, JumpIfZero);
    FetchWordAt(mem, st.(ip := st.ip + 4, stack := s), target);
  }

  /** The pop comes before the fetch of the target: an empty stack is an
      underflow even where no target word follows. */
  lemma StepJumpIfZeroUnderflow(mem: seq<u8>, host: Host, st: State)
    requires WordAt(mem, st.ip, Encode(JumpIfZero)) && st.stack == []
    ensures Step(mem, host, st) == Faulted(StackUnderflow)
  {
    StepDecodes(mem, host, st, JumpIfZero);
  }

  lemma StepUnknownSyscall(mem: seq<u8>, host: Host, st: State, sel: u32)
    requires WordAt(mem, st.ip, Encode(Syscall)) && WordAt(mem, st.ip + 4, sel)
    requires sel != SysOpen && sel != SysWrite
    ensures Step(mem, host, st) == Faulted(UnknownSyscall(sel))
  {
    StepDecodes(mem, host, st, Syscall);
    FetchWordAt(mem, st.(ip := st.ip + 4), sel);
  }

  /** `open` pops the path offset, pushes the next descriptor and binds it
      to the NUL-terminated path. */
  lemma StepOpen(mem: seq<u8>, host: Host, st: State, s: seq<u32>, buf: u32)
    requires WordAt(mem, st.ip, Encode(Syscall)) && WordAt(mem, st.ip + 4, SysOpen)
    requires st.stack == s + [buf] && buf <= |mem| && host.canOpen(CString(mem, buf))
    ensures Step(mem, host, st) == Running(st.(
      ip := st.ip + 8,
      stack := s + [st.nextFd],
      fdt := st.fdt[st.nextFd := File(CString(mem, buf))],
      nextFd := Wrap(st.nextFd + 1)))
  {
    StepDecodes(mem, host, st, Syscall);
    var s2 := st.(ip := st.ip + 8);
    FetchWordAt(mem, st.(ip := st.ip + 4), SysOpen);
    assert ExecSyscall(mem, host, st.(ip := st.ip + 4)) == Open(mem, host, s2);
    assert s2.stack[|s2.stack| - 1] == buf && s2.stack[..|s2.stack| - 1] == s;
  }

  /** `write` pops length, buffer and descriptor, and logs exactly the bytes
      of the buffer range. */
  lemma StepWrite(mem: seq<u8>, host: Host, st: State, s: seq<u32>, fd: u32, buf: u32, len: u32)
    requires WordAt(mem, st.ip, Encode(Syscall)) && WordAt(mem, st.ip + 4, SysWrite)
    requires st.stack == s + [fd, buf, len] && buf + len <= |mem| && buf + len < WORD
    requires fd in st.fdt && host.canWrite(st.fdt[fd], mem[buf..buf + len])
    ensures Step(mem, host, st) == Running(st.(
      ip := st.ip + 8,
      stack := s,
      log := st.log + [Written(fd, mem[buf..buf + len])]))
  {
    StepDecodes(mem, host, st, Syscall);
    var s2 := st.(ip := st.ip + 8);
    FetchWordAt(mem, st.(ip := st.ip + 4), SysWrite);
    assert s2.stack[..|s2.stack| - 3] == s;
    assert ExecSyscall(mem, host, st.(ip := st.ip + 4)) == Write(mem, host, s2);
    var n := |s2.stack|;
    assert s2.stack[n - 3] == fd && s2.stack[n - 2] == buf && s2.stack[n - 1] == len;
    assert Write(mem, host, s2).Ok?;
  }

  /** The buffer range, including a 32-bit overflow of its end, is checked
      before the descriptor is looked up. */
  lemma StepWriteOutOfRange(mem: seq<u8>, host: Host, st: State, s: seq<u32>, fd: u32, buf: u32, len: u32)
    requires WordAt(mem, st.ip, Encode(Syscall)) && WordAt(mem, st.ip + 4, SysWrite)
    requires st.stack == s + [fd, buf, len] && (buf + len > |mem| || buf + len >= WORD)
    ensures Step(mem, host, st) == Faulted(InputBufferOutOfRange)
  {
    StepDecodes(mem, host, st, Syscall);
    FetchWordAt(mem, st.(ip := st.ip + 4), SysWrite);
  }

  lemma StepWriteUnknownFd(mem: seq<u8>, host: Host, st: State, s: seq<u32>, fd: u32, buf: u32, len: u32)
    requires WordAt(mem, st.ip, Encode(Syscall)) && WordAt(mem, st.ip + 4, SysWrite)
    requires st.stack == s + [fd, buf, len] && buf + len <= |mem| && buf + len < WORD && fd !in st.fdt
    ensures Step(mem, host, st) == Faulted(UnknownFd)
  {
    StepDecodes(mem, host, st, Syscall);
    FetchWordAt(mem, st.(ip := st.ip + 4), SysWrite);
  }

  /** The instruction pointer moves only by the fetches of a step (one or two
      words) or to the target of a taken JumpIfZero. */
  lemma StepMovesIp(mem: seq<u8>, host: Host, st: State)
    ensures Step(mem, host, st).Running? ==>
      var ip := Step(mem, host, st).st.ip;
      || ip == st.ip + 4
      || ip == st.ip + 8
      || (&& WordAt(mem, st.ip, Encode(JumpIfZero))
          && st.stack != [] && st.stack[|st.stack| - 1] == 0
          && WordAt(mem, st.ip + 4, ip))
  {
    var r := Step(mem, host, st);
    if r.Running? {
      var code := Fetch(mem, st).value.0;
      var op := Decode(code).value;
      assert WordAt(mem, st.ip, Encode(op));
      if op == JumpIfZero {
        var s1 := st.(ip := st.ip + 4);
        var jr := ExecJumpIfZero(mem, s1);
        assert r.st == jr.value;
        if st.stack[|st.stack| - 1] == 0 {
          ToFromBigEndian(mem[st.ip + 4..st.ip + 8]);
          assert WordAt(mem, st.ip + 4, r.st.ip);
        }
      }
    }
  }

  /** Only a Syscall touches the descriptor table, the descriptor counter or
      the write log. */
  lemma StepFrame(mem: seq<u8>, host: Host, st: State)
    requires !WordAt(mem, st.ip, Encode(Syscall))
    ensures Step(mem, host, st).Running? || Step(mem, host, st).Halted? ==>
      var s := Step(mem, host, st).st;
      s.fdt == st.fdt && s.nextFd == st.nextFd && s.log == st.log
  {
    match Fetch(mem, st) {
      case Err(_) =>
      case Ok((code, s1)) =>
        match Decode(code) {
          case Err(_) =>
          case Ok(op) =>
            assert WordAt(mem, st.ip, Encode(op));
        }
    }
  }

  // ---------------------------------------------------------------- descriptors

  /** Descriptors 0, 1, 2 are the standard streams, and the table holds
      exactly the descriptors below the counter. */
  predicate FdsAllocated(st: State)
  {
    && 3 <= st.nextFd
    && (forall fd: u32 :: fd in st.fdt <==> fd < st.nextFd)
    && 0 in st.fdt && st.fdt[0] == Stdin
    && 1 in st.fdt && st.fdt[1] == Stdout
    && 2 in st.fdt && st.fdt[2] == Stderr
  }

  /** Every entry of `t` is in `t'`, bound to the same handle. */
  predicate Extends(t: map<u32, Handle>, t': map<u32, Handle>)
  {
    forall fd :: fd in t ==> fd in t' && t'[fd] == t[fd]
  }

  lemma NewAllocatesStandardFds(image: seq<u8>)
    requires New(image).Ok?
    ensures FdsAllocated(New(image).value)
  {
  }

  /** A successful `open` hands out a descriptor not yet in the table and
      leaves every existing entry alone, as long as the counter does not wrap. */
  lemma OpenAllocatesFresh(mem: seq<u8>, host: Host, st: State)
    requires FdsAllocated(st) && st.nextFd + 1 < WORD
    requires Open(mem, host, st).Ok?
    ensures st.nextFd !in st.fdt
    ensures var s := Open(mem, host, st).value;
      && FdsAllocated(s)
      && s.nextFd == st.nextFd + 1
      && s.stack[|s.stack| - 1] == st.nextFd
      && Extends(st.fdt, s.fdt)
  {
    var s := Open(mem, host, st).value;
    forall fd: u32
      ensures fd in s.fdt <==> fd < s.nextFd
    {
      assert fd in s.fdt <==> fd in st.fdt || fd == st.nextFd;
    }
  }

  /** What a step that does not fault can do to the table, the counter and
      the log: nothing, or exactly what `open` or `write` do to the state
      after the opcode and the selector. */
  lemma StepEffects(mem: seq<u8>, host: Host, st: State)
    ensures !Step(mem, host, st).Faulted? ==>
      var s := Step(mem, host, st).st;
      var s2 := st.(ip := st.ip + 8);
      || (s.fdt == st.fdt && s.nextFd == st.nextFd && s.log == st.log)
      || (Open(mem, host, s2).Ok? && s == Open(mem, host, s2).value)
      || (Write(mem, host, s2).Ok? && s == Write(mem, host, s2).value)
  {
    match Fetch(mem, st) {
      case Err(_) =>
      case Ok((code, s1)) =>
        match Decode(code) {
          case Err(_) =>
          case Ok(op) =>
            if op == Syscall {
              assert Step(mem, host, st) == Continue(ExecSyscall(mem, host, s1));
            }
        }
    }
  }

  /** One step keeps the descriptor invariant, never drops or rebinds an
      entry, and advances the counter by at most one. */
  lemma StepKeepsFds(mem: seq<u8>, host: Host, st: State)
    requires FdsAllocated(st) && st.nextFd + 1 < WORD
    ensures !Step(mem, host, st).Faulted? ==>
      var s := Step(mem, host, st).st;
      && FdsAllocated(s)
      && st.nextFd <= s.nextFd <= st.nextFd + 1
      && Extends(st.fdt, s.fdt)
  {
    var r := Step(mem, host, st);
    if !r.Faulted? {
      StepEffects(mem, host, st);
      var s2 := st.(ip := st.ip + 8);
      if Open(mem, host, s2).Ok? && r.st == Open(mem, host, s2).value {
        OpenAllocatesFresh(mem, host, s2);
      }
    }
  }

  /** `s` is `log` followed by at most one more write. */
  predicate LogGrowsByAtMostOne(log: seq<Written>, s: seq<Written>)
  {
    log <= s && |s| <= |log| + 1
  }

  /** A step never forgets a write: the log only grows, by at most one entry. */
  lemma StepLogGrows(mem: seq<u8>, host: Host, st: State)
    ensures !Step(mem, host, st).Faulted? ==> LogGrowsByAtMostOne(st.log, Step(mem, host, st).st.log)
  {
    StepEffects(mem, host, st);
  }

  // ---------------------------------------------------------------- bounded run

  /** The state a run ended in (for a failure, the state before the faulting
      instruction). */
  function FinalState(r: RunResult): State
  {
    match r
    case Finished(s) => s
    case Failed(_, s) => s
    case OutOfFuel(s) => s
  }

  /** A run stops without error, without a step, once the instruction pointer
      has left the image. */
  lemma RunPastEnd(mem: seq<u8>, host: Host, st: State, fuel: nat)
    requires st.ip >= |mem|
    ensures Run(mem, host, st, fuel) == Finished(st)
  {
  }

  lemma RunHalt(mem: seq<u8>, host: Host, st: State, fuel: nat)
    requires WordAt(mem, st.ip, Encode(Halt)) && fuel > 0
    ensures Run(mem, host, st, fuel) == Finished(st.(ip := st.ip + 4))
  {
    StepHalt(mem, host, st);
  }

  /** A run whose first step continues is that step followed by the rest of the run. */
  lemma RunStep(mem: seq<u8>, host: Host, st: State, fuel: nat)
    requires st.ip < |mem| && fuel > 0 && Step(mem, host, st).Running?
    ensures Run(mem, host, st, fuel) == Run(mem, host, Step(mem, host, st).st, fuel - 1)
  {
  }

  /** A run whose first step faults fails with that error, reporting the
      state the faulting instruction started from. */
  lemma RunFault(mem: seq<u8>, host: Host, st: State, fuel: nat, e: Error)
    requires st.ip < |mem| && fuel > 0 && Step(mem, host, st) == Faulted(e)
    ensures Run(mem, host, st, fuel) == Failed(e, st)
  {
  }

  /** Each state of `trace` lies inside the image and steps to the next. */
  ghost predicate Steps(step: State -> StepResult, size: nat, trace: seq<State>)
  {
    forall i :: 0 <= i < |trace| - 1 ==> trace[i].ip < size && step(trace[i]) == Running(trace[i + 1])
  }

  /** `Steps` for the machine's own step on image `mem`: a trace of
      instructions that each continue. */
  ghost predicate Traces(mem: seq<u8>, host: Host, trace: seq<State>)
  {
    Steps(s => Step(mem, host, s), |mem|, trace)
  }

  lemma {:induction false} LoopTrace(step: State -> StepResult, size: nat, trace: seq<State>, fuel: nat)
    requires |trace| >= 1 && |trace| - 1 <= fuel
    requires Steps(step, size, trace)
    ensures Loop(step, size, trace[0], fuel) == Loop(step, size, trace[|trace| - 1], fuel - (|trace| - 1))
    decreases |trace|
  {
    if |trace| > 1 {
      assert step(trace[0]) == Running(trace[1]);
      assert Steps(step, size, trace[1..]) by {
        forall i | 0 <= i < |trace[1..]| - 1
          ensures trace[1..][i].ip < size && step(trace[1..][i]) == Running(trace[1..][i + 1])
        {
          assert trace[1..][i] == trace[i + 1] && trace[1..][i + 1] == trace[i + 2];
        }
      }
      LoopTrace(step, size, trace[1..], fuel - 1);
    }
  }

  /** Two traces where the second starts from the state the first ends in
      join into one trace. */
  lemma StepsJoin(mem: seq<u8>, host: Host, t1: seq<State>, t2: seq<State>)
    requires |t1| >= 1 && |t2| >= 1 && t1[|t1| - 1] == t2[0]
    requires Traces(mem, host, t1)
    requires Traces(mem, host, t2)
    ensures Traces(mem, host, t1 + t2[1..])
  {
    var t := t1 + t2[1..];
    forall i | 0 <= i < |t| - 1
      ensures t[i].ip < |mem| && Step(mem, host, t[i]) == Running(t[i + 1])
    {
      if i < |t1| - 1 {
        assert t[i] == t1[i] && t[i + 1] == t1[i + 1];
      } else {
        var j := i - (|t1| - 1);
        assert t[i] == t2[j] && t[i + 1] == t2[j + 1];
      }
    }
  }

  /** A run along a trace of continuing steps consumes one unit of fuel per
      step and carries on from the last state. */
  lemma RunTrace(mem: seq<u8>, host: Host, trace: seq<State>, fuel: nat)
    requires |trace| >= 1 && |trace| - 1 <= fuel
    requires Traces(mem, host, trace)
    ensures Run(mem, host, trace[0], fuel) == Run(mem, host, trace[|trace| - 1], fuel - (|trace| - 1))
  {
    LoopTrace(s => Step(mem, host, s), |mem|, trace, fuel);
  }

  /** A run that follows `trace` and then halts finishes just past the Halt. */
  lemma RunTraceHalts(mem: seq<u8>, host: Host, trace: seq<State>, fuel: nat)
    requires |trace| >= 1 && |trace| <= fuel
    requires Traces(mem, host, trace)
    requires WordAt(mem, trace[|trace| - 1].ip, Encode(Halt))
    ensures Run(mem, host, trace[0], fuel) == Finished(trace[|trace| - 1].(ip := trace[|trace| - 1].ip + 4))
  {
    RunTrace(mem, host, trace, fuel);
    RunHalt(mem, host, trace[|trace| - 1], fuel - (|trace| - 1));
  }

  /** A run that follows `trace` and then faults fails with the last state of
      the trace. */
  lemma RunTraceFaults(mem: seq<u8>, host: Host, trace: seq<State>, fuel: nat, e: Error)
    requires |trace| >= 1 && |trace| <= fuel
    requires Traces(mem, host, trace)
    requires trace[|trace| - 1].ip < |mem| && Step(mem, host, trace[|trace| - 1]) == Faulted(e)
    ensures Run(mem, host, trace[0], fuel) == Failed(e, trace[|trace| - 1])
  {
    RunTrace(mem, host, trace, fuel);
    RunFault(mem, host, trace[|trace| - 1], fuel - (|trace| - 1), e);
  }

  lemma {:induction false} LoopFuelMonotone(step: State -> StepResult, size: nat, st: State, fuel: nat, more: nat)
    requires fuel <= more
    requires !Loop(step, size, st, fuel).OutOfFuel?
    ensures Loop(step, size, st, more) == Loop(step, size, st, fuel)
    decreases fuel
  {
    if st.ip < size && fuel > 0 && step(st).Running? {
      LoopFuelMonotone(step, size, step(st).st, fuel - 1, more - 1);
    }
  }

  /** Fuel is only a bound: a run that ended within `fuel` steps ends the same
      way with any larger bound. */
  lemma RunFuelMonotone(mem: seq<u8>, host: Host, st: State, fuel: nat, more: nat)
    requires fuel <= more
    requires !Run(mem, host, st, fuel).OutOfFuel?
    ensures Run(mem, host, st, more) == Run(mem, host, st, fuel)
  {
    LoopFuelMonotone(s => Step(mem, host, s), |mem|, st, fuel, more);
  }

  lemma {:induction false} LoopLogGrows(step: State -> StepResult, size: nat, st: State, fuel: nat)
    requires forall s :: !step(s).Faulted? ==> s.log <= step(s).st.log
    ensures st.log <= FinalState(Loop(step, size, st, fuel)).log
    decreases fuel
  {
    if st.ip < size && fuel > 0 && step(st).Running? {
      LoopLogGrows(step, size, step(st).st, fuel - 1);
    }
  }

  /** Writes performed during a run are never lost, whatever the outcome. */
  lemma RunLogGrows(mem: seq<u8>, host: Host, st: State, fuel: nat)
    ensures st.log <= FinalState(Run(mem, host, st, fuel)).log
  {
    var step := s => Step(mem, host, s);
    forall s | !step(s).Faulted?
      ensures s.log <= step(s).st.log
    {
      StepLogGrows(mem, host, s);
    }
    LoopLogGrows(step, |mem|, st, fuel);
  }

  /** The descriptor-table guarantees one step gives, for a loop body. */
  ghost predicate KeepsFds(step: State -> StepResult)
  {
    forall s :: FdsAllocated(s) && s.nextFd + 1 < WORD && !step(s).Faulted? ==>
      && FdsAllocated(step(s).st)
      && s.nextFd <= step(s).st.nextFd <= s.nextFd + 1
      && Extends(s.fdt, step(s).st.fdt)
  }

  lemma {:induction false} LoopKeepsFds(step: State -> StepResult, size: nat, st: State, fuel: nat)
    requires KeepsFds(step)
    requires FdsAllocated(st) && st.nextFd + fuel < WORD
    ensures var s := FinalState(Loop(step, size, st, fuel));
      FdsAllocated(s) && Extends(st.fdt, s.fdt) && st.nextFd <= s.nextFd
    decreases fuel
  {
    if st.ip < size && fuel > 0 && step(st).Running? {
      LoopKeepsFds(step, size, step(st).st, fuel - 1);
    }
  }

  /** Over a run whose counter cannot wrap, the descriptor invariant holds at
      the end and no descriptor is dropped or rebound. */
  lemma RunKeepsFds(mem: seq<u8>, host: Host, st: State, fuel: nat)
    requires FdsAllocated(st) && st.nextFd + fuel < WORD
    ensures var s := FinalState(Run(mem, host, st, fuel));
      FdsAllocated(s) && Extends(st.fdt, s.fdt) && st.nextFd <= s.nextFd
  {
    var step := s => Step(mem, host, s);
    forall s | FdsAllocated(s) && s.nextFd + 1 < WORD && !step(s).Faulted?
      ensures FdsAllocated(step(s).st)
      ensures s.nextFd <= step(s).st.nextFd <= s.nextFd + 1
      ensures Extends(s.fdt, step(s).st.fdt)
    {
      StepKeepsFds(mem, host, s);
    }
    LoopKeepsFds(step, |mem|, st, fuel);
  }

  /** An image whose entry point holds Halt finishes with an empty stack. */
  lemma BootHalt(image: seq<u8>, host: Host, fuel: nat)
    requires New(image).Ok? && WordAt(image, New(image).value.ip, Encode(Halt)) && fuel > 0
    ensures Boot(image, host, fuel).Ok?
    ensures Boot(image, host, fuel).value.Finished?
    ensures Boot(image, host, fuel).value.st.stack == []
  {
    RunHalt(image, host, New(image).value, fuel);
  }

  /** A malformed header fails construction, before any instruction runs. */
  lemma BootRejectsBadHeader(image: seq<u8>, host: Host, fuel: nat)
    requires |image| < HeaderSize || image[..|Header|] != Header
    ensures Boot(image, host, fuel).Err?
  {
  }
}
