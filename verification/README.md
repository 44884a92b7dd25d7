# fluxvm in Dafny

A model of the interpreter core of fluxvm, a small stack virtual machine. A
program image is a byte sequence. It starts with a 12-byte header: the magic
`F1 0F 0A 00`, the version `00 00 00 00`, and a big-endian 32-bit entry point.
The machine fetches big-endian 32-bit words from the image. It has an operand
stack of 32-bit words, a table from descriptors to open files, and nine
opcodes: `Halt`, `IConst`, `Syscall`, `JumpIfZero`, `IAdd`, `IMul`, `ISub`,
`IDiv` and `Dup`. `Syscall` takes a selector word: 0 is `open` and 1 is
`write`.

Files:

- `results.dfy` (`Results`): the `Result` type, with early return.
- `bytes.dfy` (`Bytes`): 8- and 32-bit words. It holds the big-endian
  conversions with their round trips, and reduction modulo 2^32.
- `arch.dfy` (`Arch`): the opcode table (`src/arch.rs`). It covers the enum,
  decoding from and encoding to `u32`, their round trips and injectivity.
- `vm.dfy` (`Vm`): the engine (`src/vm.rs`).
  - The VM state and construction from an image.
  - `fetch`, `pop`, and every opcode and syscall.
  - One fetch-decode-execute `Step`, and the fuel-bounded `Run` of the
    `execute` loop.
- `vm_properties.dfy` (`VmProperties`): properties that relate several
  operations.
  - The effect of a whole step, for each opcode and each error.
  - How the instruction pointer may move.
  - The descriptor-table invariant.
  - The write log only grows.
  - Runs along traces, and monotonicity in fuel.
- `programs.dfy` (`Programs`): whole guest programs, built from word lists and
  run from boot to the end.

Modelling choices:

- **The image.** The image is an immutable parameter `mem` of every
  operation. No instruction can change it.
- **Host effects.** Opening a file and writing to one go through a `Host`
  oracle.
  - `canOpen(path)` says whether opening `path` succeeds.
  - `canWrite(handle, bytes)` says whether a write succeeds.
  - A successful write appends `Written(fd, bytes)` to the state's `log`, so
    the bytes written are part of the specified result.
- **Integers.** Integer behaviour follows a release build of the source.
  - `IAdd`, `ISub` and `IMul` wrap modulo 2^32.
  - The descriptor counter wraps.
  - In `write`, the end of the buffer range `buf + len` is a wrapped 32-bit
    sum. An overflowing sum therefore gives an inverted range, which is
    reported as out of range.
- **Panics.** Every situation where the source panics is an error value of
  `Vm.Error`. These are:
  - a failing header `assert!`, or indexing past a short image;
  - division by zero;
  - `open` with a path offset past the image end, where the source's
    `usize` subtraction underflows.
- **Decoding errors.** An opcode word that does not decode faults with
  `Decoding(UnknownOpcode(code))`. The decoder's own error is reused, as the
  source's `?` passes the `try_from` error on unchanged.
- **Runs.** `Run` is the `execute` loop bounded by `fuel` steps.
  - `Finished(st)` is the source's `Ok(())`, reached by `Halt` or by the
    instruction pointer leaving the image.
  - `Failed(e, st)` reports the error together with the state the failing
    instruction started from.
  - `OutOfFuel(st)` means the bound was reached first.

## Model

| member | source | states |
|---|---|---|
| Arch.Decode | src/arch.rs:26-39 | Decoding succeeds exactly on the nine declared codes 0, 1, 3, 4, 0x10-0x13 and 0x20. Any other code fails with an unknown-opcode error that carries the code. A decoded opcode's declared discriminant is the code. |
| Arch.Encode | src/arch.rs:42-56 | Encoding is total, and it always yields one of the declared codes. |
| Arch.EncodeIsDiscriminant | src/arch.rs:2-21 | The conversion to `u32` gives every variant the discriminant the enum declares for it. |
| Arch.DecodeEncode | src/arch.rs:27-55 | Round trip: decoding the code of any opcode gives back that opcode. |
| Arch.EncodeDecode | src/arch.rs:27-55 | Reverse round trip: a code that decodes to an opcode is that opcode's encoding. |
| Arch.EncodeInjective | src/arch.rs:45-53 | Distinct opcodes have distinct codes. |
| Arch.CodesAreEncodings | src/arch.rs:27-36 | A code is defined exactly when some opcode encodes to it. |
| Arch.GapsAreUnknown | src/arch.rs:37 | Codes 2 and 5 fail to decode, and the error names them. |
| Bytes.FromToBigEndian | src/vm.rs:163 | Reading back the big-endian bytes of a word gives the word. |
| Bytes.ToFromBigEndian | src/vm.rs:42-43 | Four bytes read as a big-endian word and written back are the same four bytes. |
| Bytes.ToBigEndianInjective | src/vm.rs:163 | Distinct words have distinct big-endian encodings, so a fetched word is determined by the image bytes. |
| Vm.FirstBadHeaderByte | src/vm.rs:24-40 | The position where header checking stops is the first one, in the constructor's order, that is missing or differs from the magic/version bytes. All earlier positions pass. |
| Vm.New | src/vm.rs:22-56 | Construction succeeds iff the image has at least 12 bytes and bytes 0..7 are `F1 0F 0A 00 00 00 00 00`. On success, `ip` is the big-endian value of bytes 8..11, the stack is empty, the table is {0: stdin, 1: stdout, 2: stderr}, and the next descriptor is 3. Otherwise the error is BadMagic iff a magic byte present differs. It is BadVersion iff the magic bytes are right and a version byte present differs. It is TruncatedImage iff the image is shorter than 12 bytes and agrees with the header as far as it goes. |
| Vm.Fetch | src/vm.rs:159-164 | Fails with OutOfBounds iff `ip + 4` exceeds the image. Otherwise it returns the word whose big-endian bytes are `mem[ip..ip+4]`, and the state with `ip + 4` and nothing else changed. |
| Vm.Pop | src/vm.rs:166-168 | Fails with StackUnderflow iff the stack is empty. Otherwise the rest of the stack followed by the returned value is the old stack, and nothing else changes. |
| VmProperties.PopPush | src/vm.rs:166-168 | Popping right after a push returns the pushed value and the state before the push. |
| Vm.WrappingAdd | src/vm.rs:89-93 | The pushed sum is `a + b`, or `a + b - 2^32` when the sum overflows. Without overflow it is exactly `a + b`. |
| Vm.WrappingSub | src/vm.rs:99-103 | The pushed difference is `a - b`, or `a - b + 2^32` when `b > a`. When `b <= a` it is exactly `a - b`. |
| Vm.WrappingMul | src/vm.rs:94-98 | The pushed product is congruent to `a * b` modulo 2^32, and equals it when there is no overflow. |
| Vm.CheckedDiv | src/vm.rs:104-108 | Fails with DivisionByZero iff `b = 0`. Otherwise it returns the quotient `q` with `q*b <= a < q*b + b`. |
| Vm.ExecConst | src/vm.rs:68-72 | IConst pushes exactly the immediate word that follows the opcode, advances `ip` past it, and fails when no full word follows. |
| Vm.ExecJumpIfZero | src/vm.rs:81-88 | JumpIfZero pops first, so an empty stack is an underflow, and then fetches the target. A popped 0 sets `ip` to the target word. Any other value leaves `ip` just past the target. |
| Vm.ExecArith | src/vm.rs:89-108 | Arithmetic fails with fewer than two operands, and IDiv by 0 fails. It succeeds in every other case, and then the stack shrinks by one: the elements below the two operands are kept, and the new top is `a op b`, where `b` was on top. |
| Vm.ExecDup | src/vm.rs:109-113 | Dup fails on an empty stack, and otherwise turns `s + [a]` into `s + [a, a]`. |
| Vm.CString | src/vm.rs:124-129 | The path is a slice of the image starting at the offset. It contains no zero byte, and it ends at the image end or just before a zero byte. |
| Vm.Open | src/vm.rs:120-143 | Succeeds iff there is an operand, the offset is at most the image length (an offset equal to it gives the empty path), and the host can open the path. A refused open fails with OpenFailed carrying the path. On success the old counter is pushed, it is bound to the file at that path, every other entry is untouched, and the key set grows by exactly that descriptor. The counter advances by one, wrapping to 0 at 2^32. |
| Vm.InputBuffer | src/vm.rs:150-151 | Succeeds iff `buf + len` neither overflows 32 bits nor passes the image end. The bytes are then exactly `mem[buf..buf+len]`. An overflowing end wraps below `buf` and makes the range invalid, whatever the image size. |
| Vm.Write | src/vm.rs:145-157 | Pops `len`, then `buf`, then `fd`, with fewer than three operands an underflow. A buffer whose end overflows 32 bits or passes the image end fails before the descriptor lookup. An in-range buffer with an unknown descriptor fails, and with a known one the write succeeds exactly when the host accepts it. A refused write fails with WriteFailed carrying the descriptor. Success logs exactly `mem[buf..buf+len]` against `fd`, shrinks the stack by three, and leaves the table unchanged. |
| Vm.ExecSyscall | src/vm.rs:73-79 | The selector word after the opcode chooses `open` (0) or `write` (1). Any other selector fails with an error that names it. |
| Vm.Dispatch | src/vm.rs:63-114 | Only Halt stops the loop, and it leaves the state as it is. A continuing instruction other than Syscall leaves the descriptor table, the counter and the log unchanged. The effect of each opcode is stated by the VmProperties.Step* lemmas. |
| Vm.Step | src/vm.rs:59-114 | Fewer than four bytes at `ip` faults with OutOfBounds. The step halts exactly when the word at `ip` encodes Halt, and then only `ip` moves, past it. A word that is no opcode faults with an error carrying that word. |
| Vm.Loop | src/vm.rs:58-118 | The loop finishes at once when `ip` is outside the image. It stops early only inside the image: a failure reports the state whose step raised that error, and running out of fuel leaves `ip` inside the image. |
| Vm.Run | src/vm.rs:58-118 | `execute` on a VM whose `ip` is outside the image returns Ok at once. A failed run stopped at an instruction inside the image whose step raises the reported error. RunFuelMonotone, RunTrace and RunLogGrows state the rest. |
| VmProperties.FetchWordAt | src/vm.rs:159-164 | Fetching at an offset that holds the encoding of `w` yields `w`. |
| VmProperties.StepDecodes | src/vm.rs:60-63 | A step at an encoded opcode performs that opcode's effect with `ip` past the opcode word. |
| VmProperties.StepUnknownOpcode | src/vm.rs:63 | A word that is no opcode faults with an error that carries it. |
| VmProperties.StepOutOfBounds | src/vm.rs:60 | Fewer than four bytes at `ip` faults with OutOfBounds. |
| VmProperties.StepHalt | src/vm.rs:64-67 | Halt stops the machine with `ip` past it and nothing else changed. |
| VmProperties.StepConst | src/vm.rs:68-72 | A whole IConst step pushes the immediate and moves `ip` by 8. |
| VmProperties.StepArith | src/vm.rs:89-108 | A whole arithmetic step turns `s + [a, b]` into `s + [a op b]` and moves `ip` by 4. |
| VmProperties.StepArithUnderflow | src/vm.rs:90-91 | Arithmetic on fewer than two operands faults with StackUnderflow. |
| VmProperties.StepDivideByZero | src/vm.rs:104-107 | IDiv with 0 on top faults with DivisionByZero. |
| VmProperties.StepDup | src/vm.rs:109-113 | A whole Dup step turns `s + [a]` into `s + [a, a]`. |
| VmProperties.StepDupUnderflow | src/vm.rs:110 | Dup on an empty stack faults with StackUnderflow. |
| VmProperties.StepJumpIfZero | src/vm.rs:81-88 | With `a` on top and target `t`, the step pops `a`. It then continues at `t` when `a = 0`, and 8 bytes further on otherwise. |
| VmProperties.StepJumpIfZeroUnderflow | src/vm.rs:82-83 | On an empty stack JumpIfZero underflows, even when no target word follows. |
| VmProperties.StepUnknownSyscall | src/vm.rs:78 | A selector other than 0 or 1 faults with UnknownSyscall carrying the selector. |
| VmProperties.StepOpen | src/vm.rs:120-143 | A whole `open` step replaces the offset with the next descriptor and binds that descriptor to the path. The counter advances, and `ip` moves by 8. |
| VmProperties.StepWrite | src/vm.rs:145-157 | A whole `write` step with an in-range buffer and a known descriptor drops the three operands and logs exactly the buffer's bytes. |
| VmProperties.StepWriteOutOfRange | src/vm.rs:150-151 | A buffer past the image end, or one whose end overflows 32 bits, faults with InputBufferOutOfRange, even when the descriptor is unknown. |
| VmProperties.StepWriteUnknownFd | src/vm.rs:153 | An in-range buffer with an unbound descriptor faults with UnknownFd. |
| VmProperties.StepMovesIp | src/vm.rs:58-168 | After a continuing step, `ip` has moved by 4 or 8. The only other case is a JumpIfZero that popped 0, and then `ip` is its target word. |
| VmProperties.StepFrame | src/vm.rs:64-113 | A step that is not a Syscall leaves the descriptor table, the counter and the log unchanged. |
| VmProperties.NewAllocatesStandardFds | src/vm.rs:49-54 | A constructed VM satisfies the descriptor invariant: 0, 1 and 2 are the standard streams, and the table holds exactly the descriptors below the counter. |
| VmProperties.OpenAllocatesFresh | src/vm.rs:131-140 | When the counter does not wrap, `open` hands out a descriptor not yet in the table and keeps the invariant. It pushes the new descriptor and keeps every existing binding. |
| VmProperties.StepEffects | src/vm.rs:58-157 | A step that does not fault leaves the table, the counter and the log alone, or does exactly what `open` or `write` does. |
| VmProperties.StepKeepsFds | src/vm.rs:120-143 | One step keeps the descriptor invariant, never drops or rebinds a descriptor, and raises the counter by at most one. |
| VmProperties.StepLogGrows | src/vm.rs:145-157 | One step never removes a logged write, and adds at most one. |
| VmProperties.RunPastEnd | src/vm.rs:59 | A run with `ip` outside the image finishes at once, without a step. |
| VmProperties.RunHalt | src/vm.rs:64-67 | A run at a Halt finishes just past it. |
| VmProperties.RunStep | src/vm.rs:58-60 | A run whose first step continues is that step followed by the rest of the run. |
| VmProperties.RunFault | src/vm.rs:58-63 | A run whose first step faults fails with that error. |
| VmProperties.RunTrace | src/vm.rs:58-115 | A run along a trace of continuing steps uses one unit of fuel per step and carries on from the trace's last state. |
| VmProperties.StepsJoin | src/vm.rs:58-115 | Two traces of continuing steps, where the second starts from the state the first ends in, join into one trace of continuing steps. |
| VmProperties.RunTraceHalts | src/vm.rs:58-117 | A run that follows a trace and then halts finishes just past the Halt. |
| VmProperties.RunTraceFaults | src/vm.rs:58-115 | A run that follows a trace and then faults fails with the trace's last state. |
| VmProperties.RunFuelMonotone | src/vm.rs:58-118 | A run that ended within some fuel ends the same way with any larger fuel. |
| VmProperties.RunLogGrows | src/vm.rs:58-157 | A run never loses a write, whatever its outcome. |
| VmProperties.RunKeepsFds | src/vm.rs:120-143 | Over a run whose counter cannot wrap, the descriptor invariant holds at the end. No descriptor is dropped or rebound, and the counter never decreases. |
| VmProperties.BootHalt | src/vm.rs:58-67 | An image whose entry point holds Halt boots and finishes with an empty stack. |
| VmProperties.BootRejectsBadHeader | src/vm.rs:22-33 | An image with a short or wrong header fails before any instruction runs. |
| Programs.BootProgram | src/vm.rs:22-56 | Every image built as header, entry point 12 and code constructs to the same initial state, and runs from it. |
| Programs.SubtractionExample | src/vm.rs:99-103 | `IConst 5; IConst 3; ISub; Halt` finishes with stack `[2]`: the first operand pushed is the minuend. |
| Programs.DivisionByZeroExample | src/vm.rs:104-107 | `IConst 6; IConst 0; IDiv; Halt` fails with DivisionByZero at the IDiv. |
| Programs.UnknownFdExample | src/vm.rs:145-154 | Writing to a descriptor that was never opened fails with UnknownFd, and nothing is logged. |
| Programs.OpenWriteExample | src/vm.rs:120-157 | A program that opens "a", writes one byte to the new descriptor and halts ends with descriptor 3 bound to "a", the counter at 4, and that byte logged against descriptor 3. |

## Left out

- `src/main.rs` (argument parsing, reading the image file, printing the error) is not part of this model.
- Real files. `File::from_raw_fd`, `File::options().create(true).write(true).open(..)` and the OS write are the `Host` oracle. The oracle is a fixed function of the path and of the handle and bytes. It does not model file contents or a host whose answers change over time.
- Vm.Write: a successful `write` logs the whole buffer. The source calls `Write::write`, which may write only a prefix and reports how much it wrote; the source ignores that count. Short writes are not modelled.
- Error messages. The source's error strings (`format!("{:x?}")` and so on) are error kinds of `Vm.Error`. An I/O error's text is reduced to `OpenFailed(path)` or `WriteFailed(fd)`.
- Debug builds. There, overflow in `IAdd`/`IMul`/`ISub`, in `buf + len` and in the descriptor counter panics. The model follows release builds, which wrap.
- Vm.CString: the path is kept as bytes. The source widens each byte to a `char` and passes the UTF-8 encoding of the resulting string to the file system, so a byte of 0x80 or more reaches the host as two bytes.
- VmProperties.OpenAllocatesFresh, VmProperties.StepKeepsFds, VmProperties.RunKeepsFds: the invariant "the table holds exactly the descriptors below the counter" is proved only while the 32-bit counter does not wrap. After 2^32 - 3 opens the source starts reusing descriptors, beginning with 0.
- State after a failure. In the source a failing instruction may already have advanced `ip` or popped operands. `execute` returns only the error, and the model reports the state from before the failing instruction.
- Unbounded runs. `execute` may not terminate, so `Run` takes a fuel bound. Only runs that end within the bound are described; `OutOfFuel` says the bound was reached.
