/** The instruction set: a closed set of opcodes, each with a fixed 32-bit
    code, a fallible decode from a raw word and a total encode back. */
module Arch {
  import opened Bytes
  import opened Results

  datatype Opcode =
    | Halt        // stop program execution
    | IConst      // push the next word
    | Syscall     // host call selected by the next word
    | JumpIfZero  // pop, then jump to the next word if the popped value is zero
    | IAdd
    | IMul
    | ISub
    | IDiv
    | Dup         // duplicate the top of the stack
  {
    /** The four binary arithmetic instructions. */
    predicate IsArith() {
      this in {IAdd, IMul, ISub, IDiv}
    }
  }

  /** Decoding fails on any code that names no opcode; the error carries the
      offending code for diagnostics. */
  datatype DecodeError = UnknownOpcode(code: u32)

  /** The defined code points. */
  const Codes: set<u32> := {0x00, 0x01, 0x03, 0x04, 0x10, 0x11, 0x12, 0x13, 0x20}

  /** The discriminant each variant is declared with in the enum itself. */
  function Discriminant(op: Opcode): u32
  {
    match op
    case Halt => 0
    case IConst => 1
    case Syscall => 3
    case JumpIfZero => 4
    case IAdd => 0x10
    case IMul => 0x11
    case ISub => 0x12
    case IDiv => 0x13
    case Dup => 0x20
  }

  /** `From<Opcode> for u32`: total, and always a defined code. */
  function Encode(op: Opcode): (c: u32)
    ensures c in Codes
  {
    match op
    case Halt => 0
    case IConst => 1
    case Syscall => 3
    case JumpIfZero => 4
    case IAdd => 0x10
    case IMul => 0x11
    case ISub => 0x12
    case IDiv => 0x13
    case Dup => 0x20
  }

  /** `TryFrom<u32> for Opcode`. */
  function Decode(c: u32): (r: Result<Opcode, DecodeError>)
    ensures r.Ok? <==> c in Codes
    ensures r.Err? ==> r.error == UnknownOpcode(c)
    ensures r.Ok? ==> Discriminant(r.value) == c
  {
    match c
    case 0x00 => Ok(Halt)
    case 0x01 => Ok(IConst)
    case 0x03 => Ok(Syscall)
    case 0x04 => Ok(JumpIfZero)
    case 0x10 => Ok(IAdd)
    case 0x11 => Ok(IMul)
    case 0x12 => Ok(ISub)
    case 0x13 => Ok(IDiv)
    case 0x20 => Ok(Dup)
    case _ => Err(UnknownOpcode(c))
  }

  /** The conversion impl and the enum declaration agree on every variant. */
  lemma EncodeIsDiscriminant(op: Opcode)
    ensures Encode(op) == Discriminant(op)
  {
  }

  /** Every opcode survives an encode/decode round trip. */
  lemma DecodeEncode(op: Opcode)
    ensures Decode(Encode(op)) == Ok(op)
  {
  }

  /** A successfully decoded code is the encoding of the opcode it decodes to. */
  lemma EncodeDecode(c: u32)
    ensures Decode(c).Ok? ==> Encode(Decode(c).value) == c
  {
  }

  /** Distinct opcodes have distinct codes. */
  lemma EncodeInjective(op1: Opcode, op2: Opcode)
    ensures Encode(op1) == Encode(op2) ==> op1 == op2
  {
    DecodeEncode(op1);
    DecodeEncode(op2);
  }

  /** The defined codes are exactly the images of the opcodes. */
  lemma CodesAreEncodings(c: u32)
    ensures c in Codes <==> exists op :: Encode(op) == c
  {
    if c in Codes {
      EncodeDecode(c);
    }
  }

  /** Codes 2 and 5 lie between defined codes but are not opcodes. */
  lemma GapsAreUnknown()
    ensures Decode(2) == Err(UnknownOpcode(2))
    ensures Decode(5) == Err(UnknownOpcode(5))
  {
  }
}
