/** Small guest programs run through the model end to end: images built from
    a list of code words, and the outcome of running each. */
module Programs {
  import opened Bytes
  import opened Results
  import opened Arch
  import opened Vm
  import opened VmProperties

  /** The concatenated big-endian encodings of `ws`. */
  function Words(ws: seq<u32>): (b: seq<u8>)
    ensures |b| == 4 * |ws|
  {
    if ws == [] then [] else ToBigEndian(ws[0]) + Words(ws[1..])
  }

  /** Word `i` of `ws` sits at byte offset `4 * i` of its encoding. */
  lemma {:induction false} WordsAt(ws: seq<u32>, i: nat)
    requires i < |ws|
    ensures Words(ws)[4 * i..4 * i + 4] == ToBigEndian(ws[i])
  {
    if i > 0 {
      WordsAt(ws[1..], i - 1);
      assert Words(ws)[4 * i..4 * i + 4] == Words(ws[1..])[4 * (i - 1)..4 * (i - 1) + 4];
    }
  }

  /** A well-formed image whose code (and data) words start right after the
      header, at the entry point 12. */
  function Program(ws: seq<u32>): seq<u8>
  {
    Header + ToBigEndian(HeaderSize) + Words(ws)
  }

  /** Every word of a program is where the engine will fetch it. */
  lemma ProgramWordAt(ws: seq<u32>, i: nat)
    requires i < |ws|
    ensures WordAt(Program(ws), HeaderSize + 4 * i, ws[i])
  {
    WordsAt(ws, i);
    var image := Program(ws);
    assert image[HeaderSize + 4 * i..HeaderSize + 4 * i + 4] == Words(ws)[4 * i..4 * i + 4];
  }

  /** A program image is the header, the entry point and the code, in that
      order. */
  lemma ProgramHead(ws: seq<u32>)
    ensures |Program(ws)| == HeaderSize + 4 * |ws|
    ensures Program(ws)[..|Header|] == Header
  {
  }

  const Start: State := State(HeaderSize, [], StandardFds, 3, [])

  /** Every program image constructs to the same initial state, from which
      it runs. */
  lemma BootProgram(ws: seq<u32>, host: Host, fuel: nat)
    ensures New(Program(ws)) == Ok(Start)
    ensures Boot(Program(ws), host, fuel) == Ok(Run(Program(ws), host, Start, fuel))
  {
    var image := Program(ws);
    assert image[..|Header|] == Header;
    assert image[8..12] == ToBigEndian(HeaderSize);
    ToBigEndianInjective(New(image).value.ip, HeaderSize);
  }

  /** `IConst 5; IConst 3; ISub; Halt`. */
  const SubtractionCode: seq<u32> := [1, 5, 1, 3, 0x12, 0]

  /** The program leaves `[2]`: the operand pushed first is the minuend. */
  lemma SubtractionExample(host: Host, fuel: nat)
    requires fuel >= 4
    ensures Boot(Program(SubtractionCode), host, fuel) == Ok(Finished(Start.(ip := 36, stack := [2])))
  {
    SubtractionLayout();
    BootProgram(SubtractionCode, host, fuel);
    SubtractionRun(Program(SubtractionCode), host, fuel);
  }

  lemma SubtractionLayout()
    ensures var image := Program(SubtractionCode);
      && WordAt(image, 12, 1) && WordAt(image, 16, 5) && WordAt(image, 20, 1)
      && WordAt(image, 24, 3) && WordAt(image, 28, 0x12) && WordAt(image, 32, 0)
  {
    var ws := SubtractionCode;
    ProgramWordAt(ws, 0); ProgramWordAt(ws, 1); ProgramWordAt(ws, 2);
    ProgramWordAt(ws, 3); ProgramWordAt(ws, 4); ProgramWordAt(ws, 5);
  }

  lemma SubtractionRun(image: seq<u8>, host: Host, fuel: nat)
    requires fuel >= 4
    requires WordAt(image, 12, 1) && WordAt(image, 16, 5) && WordAt(image, 20, 1)
    requires WordAt(image, 24, 3) && WordAt(image, 28, 0x12) && WordAt(image, 32, 0)
    ensures Run(image, host, Start, fuel) == Finished(Start.(ip := 36, stack := [2]))
  {
    var trace := SubtractionTrace(image, host);
    RunTraceHalts(image, host, trace, fuel);
  }

  lemma SubtractionTrace(image: seq<u8>, host: Host) returns (trace: seq<State>)
    requires WordAt(image, 12, 1) && WordAt(image, 16, 5) && WordAt(image, 20, 1)
    requires WordAt(image, 24, 3) && WordAt(image, 28, 0x12)
    ensures trace == [Start, Start.(ip := 20, stack := [5]), Start.(ip := 28, stack := [5, 3]), Start.(ip := 32, stack := [2])]
    ensures Traces(image, host, trace)
  {
    trace := [Start, Start.(ip := 20, stack := [5]), Start.(ip := 28, stack := [5, 3]), Start.(ip := 32, stack := [2])];
    forall i | 0 <= i < 3
      ensures trace[i].ip < |image| && Step(image, host, trace[i]) == Running(trace[i + 1])
    {
      if i == 0 {
        StepConst(image, host, trace[0], 5);
      } else if i == 1 {
        StepConst(image, host, trace[1], 3);
      } else {
        StepArith(image, host, trace[2], ISub, [], 5, 3);
      }
    }
  }

  /** `IConst 6; IConst 0; IDiv; Halt`. */
  const DivisionCode: seq<u32> := [1, 6, 1, 0, 0x13, 0]

  /** The program fails with a division by zero and pushes nothing. */
  lemma DivisionByZeroExample(host: Host, fuel: nat)
    requires fuel >= 3
    ensures Boot(Program(DivisionCode), host, fuel) == Ok(Failed(DivisionByZero, Start.(ip := 28, stack := [6, 0])))
  {
    DivisionLayout();
    BootProgram(DivisionCode, host, fuel);
    DivisionByZeroRun(Program(DivisionCode), host, fuel);
  }

  lemma DivisionLayout()
    ensures var image := Program(DivisionCode);
      && WordAt(image, 12, 1) && WordAt(image, 16, 6) && WordAt(image, 20, 1)
      && WordAt(image, 24, 0) && WordAt(image, 28, 0x13)
  {
    var ws := DivisionCode;
    ProgramWordAt(ws, 0); ProgramWordAt(ws, 1); ProgramWordAt(ws, 2); ProgramWordAt(ws, 3); ProgramWordAt(ws, 4);
  }

  lemma DivisionByZeroRun(image: seq<u8>, host: Host, fuel: nat)
    requires fuel >= 3
    requires WordAt(image, 12, 1) && WordAt(image, 16, 6) && WordAt(image, 20, 1)
    requires WordAt(image, 24, 0) && WordAt(image, 28, 0x13)
    ensures Run(image, host, Start, fuel) == Failed(DivisionByZero, Start.(ip := 28, stack := [6, 0]))
  {
    var trace := DivisionTrace(image, host);
    StepDivideByZero(image, host, trace[2], [], 6);
    RunTraceFaults(image, host, trace, fuel, DivisionByZero);
  }

  lemma DivisionTrace(image: seq<u8>, host: Host) returns (trace: seq<State>)
    requires WordAt(image, 12, 1) && WordAt(image, 16, 6) && WordAt(image, 20, 1) && WordAt(image, 24, 0)
    ensures trace == [Start, Start.(ip := 20, stack := [6]), Start.(ip := 28, stack := [6, 0])]
    ensures Traces(image, host, trace)
  {
    trace := [Start, Start.(ip := 20, stack := [6]), Start.(ip := 28, stack := [6, 0])];
    forall i | 0 <= i < 2
      ensures trace[i].ip < |image| && Step(image, host, trace[i]) == Running(trace[i + 1])
    {
      if i == 0 {
        StepConst(image, host, trace[0], 6);
      } else {
        StepConst(image, host, trace[1], 0);
      }
    }
  }

  /** `IConst 9; IConst 0; IConst 4; Syscall write; Halt`: descriptor 9 was
      never opened. */
  const UnknownFdCode: seq<u32> := [1, 9, 1, 0, 1, 4, 3, 1, 0]

  /** The write fails with an unknown-fd error and writes nothing. */
  lemma UnknownFdExample(host: Host, fuel: nat)
    requires fuel >= 4
    ensures Boot(Program(UnknownFdCode), host, fuel) == Ok(Failed(UnknownFd, Start.(ip := 36, stack := [9, 0, 4])))
  {
    UnknownFdLayout();
    BootProgram(UnknownFdCode, host, fuel);
    UnknownFdRun(Program(UnknownFdCode), host, fuel);
  }

  lemma UnknownFdLayout()
    ensures var image := Program(UnknownFdCode);
      && WordAt(image, 12, 1) && WordAt(image, 16, 9) && WordAt(image, 20, 1) && WordAt(image, 24, 0)
      && WordAt(image, 28, 1) && WordAt(image, 32, 4) && WordAt(image, 36, 3) && WordAt(image, 40, 1)
  {
    var ws := UnknownFdCode;
    ProgramWordAt(ws, 0); ProgramWordAt(ws, 1); ProgramWordAt(ws, 2); ProgramWordAt(ws, 3);
    ProgramWordAt(ws, 4); ProgramWordAt(ws, 5); ProgramWordAt(ws, 6); ProgramWordAt(ws, 7);
  }

  lemma UnknownFdRun(image: seq<u8>, host: Host, fuel: nat)
    requires fuel >= 4
    requires WordAt(image, 12, 1) && WordAt(image, 16, 9) && WordAt(image, 20, 1) && WordAt(image, 24, 0)
    requires WordAt(image, 28, 1) && WordAt(image, 32, 4) && WordAt(image, 36, 3) && WordAt(image, 40, 1)
    ensures Run(image, host, Start, fuel) == Failed(UnknownFd, Start.(ip := 36, stack := [9, 0, 4]))
  {
    var trace := UnknownFdTrace(image, host);
    StepWriteUnknownFd(image, host, trace[3], [], 9, 0, 4);
    RunTraceFaults(image, host, trace, fuel, UnknownFd);
  }

  /** The three pushes before the write. */
  lemma UnknownFdTrace(image: seq<u8>, host: Host) returns (trace: seq<State>)
    requires WordAt(image, 12, 1) && WordAt(image, 16, 9) && WordAt(image, 20, 1) && WordAt(image, 24, 0)
    requires WordAt(image, 28, 1) && WordAt(image, 32, 4)
    ensures trace == [Start, Start.(ip := 20, stack := [9]), Start.(ip := 28, stack := [9, 0]), Start.(ip := 36, stack := [9, 0, 4])]
    ensures Traces(image, host, trace)
  {
    trace := [Start, Start.(ip := 20, stack := [9]), Start.(ip := 28, stack := [9, 0]), Start.(ip := 36, stack := [9, 0, 4])];
    forall i | 0 <= i < 3
      ensures trace[i].ip < |image| && Step(image, host, trace[i]) == Running(trace[i + 1])
    {
      if i == 0 {
        StepConst(image, host, trace[0], 9);
      } else if i == 1 {
        StepConst(image, host, trace[1], 0);
      } else {
        StepConst(image, host, trace[2], 4);
      }
    }
  }

  /** Opens the path "a" (stored as data after the code), writes that same
      byte to the new descriptor, and halts. */
  const OpenWriteCode: seq<u32> := [
    1, 56,       // IConst 56: offset of the path
    3, 0,        // Syscall open: pushes descriptor 3
    1, 56,       // IConst 56: buffer offset
    1, 1,        // IConst 1: length
    3, 1,        // Syscall write
    0,           // Halt
    0x6100_0000  // data: 'a', NUL
  ]

  /** The state the open-and-write program halts in: descriptor 3 is bound to
      the file "a" and the byte 'a' was written to it. */
  const OpenWriteFinal: State := Opened.(ip := 56, stack := [], log := [Written(3, [0x61])])

  lemma OpenWriteExample(host: Host, fuel: nat)
    requires fuel >= 6
    requires host.canOpen([0x61])
    requires host.canWrite(File([0x61]), [0x61])
    ensures Boot(Program(OpenWriteCode), host, fuel) == Ok(Finished(OpenWriteFinal))
  {
    OpenWriteHead();
    OpenWriteOpenLayout();
    OpenWriteWriteLayout();
    BootProgram(OpenWriteCode, host, fuel);
    OpenWriteRun(Program(OpenWriteCode), host, fuel);
  }

  /** The image is 60 bytes long. */
  lemma OpenWriteHead()
    ensures var image := Program(OpenWriteCode);
      |image| == 60
  {
    ProgramHead(OpenWriteCode);
  }

  lemma OpenWriteOpenLayout()
    ensures var image := Program(OpenWriteCode);
      && WordAt(image, 12, 1) && WordAt(image, 16, 56) && WordAt(image, 20, 3)
      && WordAt(image, 24, 0) && WordAt(image, 28, 1) && WordAt(image, 32, 56)
  {
    var ws := OpenWriteCode;
    ProgramWordAt(ws, 0); ProgramWordAt(ws, 1); ProgramWordAt(ws, 2);
    ProgramWordAt(ws, 3); ProgramWordAt(ws, 4); ProgramWordAt(ws, 5);
  }

  lemma OpenWriteWriteLayout()
    ensures var image := Program(OpenWriteCode);
      && WordAt(image, 36, 1) && WordAt(image, 40, 1) && WordAt(image, 44, 3)
      && WordAt(image, 48, 1) && WordAt(image, 52, 0) && WordAt(image, 56, 0x6100_0000)
  {
    var ws := OpenWriteCode;
    ProgramWordAt(ws, 6); ProgramWordAt(ws, 7); ProgramWordAt(ws, 8);
    ProgramWordAt(ws, 9); ProgramWordAt(ws, 10); ProgramWordAt(ws, 11);
  }

  /** The state right after the `open`. */
  const Opened: State := Start.(ip := 28, stack := [3], fdt := Start.fdt[3 := File([0x61])], nextFd := 4)

  lemma OpenWriteRun(image: seq<u8>, host: Host, fuel: nat)
    requires fuel >= 6
    requires |image| == 60
    requires WordAt(image, 12, 1) && WordAt(image, 16, 56) && WordAt(image, 20, 3) && WordAt(image, 24, 0)
    requires WordAt(image, 28, 1) && WordAt(image, 32, 56) && WordAt(image, 36, 1) && WordAt(image, 40, 1)
    requires WordAt(image, 44, 3) && WordAt(image, 48, 1) && WordAt(image, 52, 0) && WordAt(image, 56, 0x6100_0000)
    requires host.canOpen([0x61])
    requires host.canWrite(File([0x61]), [0x61])
    ensures Run(image, host, Start, fuel) == Finished(OpenWriteFinal)
  {
    var trace := OpenWriteTrace(image, host);
    RunTraceHalts(image, host, trace, fuel);
  }

  lemma OpenWriteTrace(image: seq<u8>, host: Host) returns (trace: seq<State>)
    requires |image| == 60
    requires WordAt(image, 12, 1) && WordAt(image, 16, 56) && WordAt(image, 20, 3) && WordAt(image, 24, 0)
    requires WordAt(image, 28, 1) && WordAt(image, 32, 56) && WordAt(image, 36, 1) && WordAt(image, 40, 1)
    requires WordAt(image, 44, 3) && WordAt(image, 48, 1) && WordAt(image, 56, 0x6100_0000)
    requires host.canOpen([0x61])
    requires host.canWrite(File([0x61]), [0x61])
    ensures |trace| == 6 && trace[0] == Start && trace[5] == OpenWriteFinal.(ip := 52)
    ensures Traces(image, host, trace)
  {
    var opening := OpenWriteOpenTrace(image, host);
    var writing := OpenWriteWriteTrace(image, host);
    StepsJoin(image, host, opening, writing);
    trace := opening + writing[1..];
  }

  /** Push the path offset, then open it. */
  lemma OpenWriteOpenTrace(image: seq<u8>, host: Host) returns (trace: seq<State>)
    requires |image| == 60
    requires WordAt(image, 12, 1) && WordAt(image, 16, 56) && WordAt(image, 20, 3) && WordAt(image, 24, 0)
    requires WordAt(image, 56, 0x6100_0000)
    requires host.canOpen([0x61])
    ensures trace == [Start, Start.(ip := 20, stack := [56]), Opened]
    ensures Traces(image, host, trace)
  {
    trace := [Start, Start.(ip := 20, stack := [56]), Opened];
    forall i | 0 <= i < 2
      ensures trace[i].ip < |image| && Step(image, host, trace[i]) == Running(trace[i + 1])
    {
      if i == 0 {
        StepConst(image, host, Start, 56);
      } else {
        OpenWriteOpens(image, host);
      }
    }
  }

  /** Push the buffer offset and its length, then write. */
  lemma OpenWriteWriteTrace(image: seq<u8>, host: Host) returns (trace: seq<State>)
    requires |image| == 60
    requires WordAt(image, 28, 1) && WordAt(image, 32, 56) && WordAt(image, 36, 1) && WordAt(image, 40, 1)
    requires WordAt(image, 44, 3) && WordAt(image, 48, 1) && WordAt(image, 56, 0x6100_0000)
    requires host.canWrite(File([0x61]), [0x61])
    ensures trace == [Opened, Opened.(ip := 36, stack := [3, 56]), Opened.(ip := 44, stack := [3, 56, 1]), OpenWriteFinal.(ip := 52)]
    ensures Traces(image, host, trace)
  {
    trace := [Opened, Opened.(ip := 36, stack := [3, 56]), Opened.(ip := 44, stack := [3, 56, 1]), OpenWriteFinal.(ip := 52)];
    forall i | 0 <= i < 3
      ensures trace[i].ip < |image| && Step(image, host, trace[i]) == Running(trace[i + 1])
    {
      if i == 0 {
        StepConst(image, host, Opened, 56);
      } else if i == 1 {
        StepConst(image, host, Opened.(ip := 36, stack := [3, 56]), 1);
      } else {
        OpenWriteWriteStep(image, host);
      }
    }
  }

  lemma OpenWriteOpens(image: seq<u8>, host: Host)
    requires |image| == 60
    requires WordAt(image, 20, 3) && WordAt(image, 24, 0) && WordAt(image, 56, 0x6100_0000)
    requires host.canOpen([0x61])
    ensures Step(image, host, Start.(ip := 20, stack := [56])) == Running(Opened)
  {
    OpenWritePath(image);
    StepOpen(image, host, Start.(ip := 20, stack := [56]), [], 56);
  }

  /** The path stored at offset 56 is the one-byte string "a", followed by
      its NUL terminator. */
  lemma OpenWritePath(image: seq<u8>)
    requires |image| == 60 && WordAt(image, 56, 0x6100_0000)
    ensures image[56..57] == [0x61]
    ensures CString(image, 56) == [0x61]
  {
    assert image[56..60] == [0x61, 0, 0, 0];
    assert image[56] == image[56..60][0] == 0x61;
    assert image[57] == image[56..60][1] == 0;
    assert CString(image, 57) == [];
  }

  lemma OpenWriteWriteStep(image: seq<u8>, host: Host)
    requires |image| == 60 && WordAt(image, 56, 0x6100_0000)
    requires WordAt(image, 44, 3) && WordAt(image, 48, 1)
    requires host.canWrite(File([0x61]), [0x61])
    ensures Step(image, host, Opened.(ip := 44, stack := [3, 56, 1])) == Running(OpenWriteFinal.(ip := 52))
  {
    var st := Opened.(ip := 44, stack := [3, 56, 1]);
    OpenWritePath(image);
    assert 3 in st.fdt && st.fdt[3] == File([0x61]);
    StepWrite(image, host, st, [], 3, 56, 1);
    assert st.(ip := 52, stack := [], log := st.log + [Written(3, image[56..57])]) == OpenWriteFinal.(ip := 52);
  }
}
