// The x86 encoding table of the quick compiler's back end, the size each
// instruction is predicted to take (ComputeSize, GetInsnSize) and the bytes
// each emitter appends to the code buffer, stated as functions. The emitter
// methods that append those bytes live in X86Assembler.
module X86Encoding {
  import opened Bytes
  import RegStorage

  /** The encoding kinds (X86EncodingKind): how an instruction's operands are laid out. */
  datatype X86EncodingKind =
    | Data | Nop | Nullary | Prefix2Nullary | RegOpcode | Reg | Mem | Array
    | MemReg | MemRegImm | ArrayReg | ThreadReg | RegReg | RegRegStore | RegMem
    | RegArray | RegThread | RegImm | MemImm | ArrayImm | ThreadImm | RegRegImm
    | RegRegImmRev | RegMemImm | RegArrayImm | MovRegImm | ShiftRegImm
    | ShiftMemImm | ShiftArrayImm | ShiftRegCl | ShiftMemCl | ShiftArrayCl
    | RegCond | MemCond | ArrayCond | RegRegCond | RegMemCond | Jcc | Jmp | Call
    | PcRel | Macro

  /**
   * The modelled subset of the X86OpCode enumeration. Opcodes are integers,
   * as in the source; the numbering is this model's own, in table order.
   */
  newtype X86OpCode = x: int | 0 <= x < 83

  const X8632BitData: X86OpCode := 0
  const X86Bkpt: X86OpCode := 1
  const X86Nop: X86OpCode := 2
  const X86Add8RI: X86OpCode := 3
  const X86Add16RI: X86OpCode := 4
  const X86Add32MR: X86OpCode := 5
  const X86Add32RR: X86OpCode := 6
  const X86Add32RM: X86OpCode := 7
  const X86Add32RI: X86OpCode := 8
  const X86Add32MI: X86OpCode := 9
  const X86Add32RI8: X86OpCode := 10
  const X86Sub32RI: X86OpCode := 11
  const X86Imul32RRI: X86OpCode := 12
  const X86Imul32RMI: X86OpCode := 13
  const X86Imul32RAI: X86OpCode := 14
  const X86Imul32RRI8: X86OpCode := 15
  const X86Mov8MR: X86OpCode := 16
  const X86Mov8RI: X86OpCode := 17
  const X86Mov16RI: X86OpCode := 18
  const X86Mov32MR: X86OpCode := 19
  const X86Mov32AR: X86OpCode := 20
  const X86Mov32TR: X86OpCode := 21
  const X86Mov32RR: X86OpCode := 22
  const X86Mov32RM: X86OpCode := 23
  const X86Mov32RA: X86OpCode := 24
  const X86Mov32RT: X86OpCode := 25
  const X86Mov32RI: X86OpCode := 26
  const X86Mov32MI: X86OpCode := 27
  const X86Mov32AI: X86OpCode := 28
  const X86Mov32TI: X86OpCode := 29
  const X86Lea32RM: X86OpCode := 30
  const X86Lea32RA: X86OpCode := 31
  const X86Cmov32RRC: X86OpCode := 32
  const X86Cmov32RMC: X86OpCode := 33
  const X86Sal8RI: X86OpCode := 34
  const X86Sal8MI: X86OpCode := 35
  const X86Sal8RC: X86OpCode := 36
  const X86Sal8MC: X86OpCode := 37
  const X86Sal16RC: X86OpCode := 38
  const X86Sal16MC: X86OpCode := 39
  const X86Sal32RI: X86OpCode := 40
  const X86Sal32MI: X86OpCode := 41
  const X86Sal32RC: X86OpCode := 42
  const X86Sal32MC: X86OpCode := 43
  const X86Cmc: X86OpCode := 44
  const X86Shld32RRI: X86OpCode := 45
  const X86Shld32MRI: X86OpCode := 46
  const X86Test32RR: X86OpCode := 47
  const X86Not32R: X86OpCode := 48
  const X86Not32M: X86OpCode := 49
  const X86Not32A: X86OpCode := 50
  const X86Neg32R: X86OpCode := 51
  const X86Cdq32Da: X86OpCode := 52
  const X86Bswap32R: X86OpCode := 53
  const X86Push32R: X86OpCode := 54
  const X86Pop32R: X86OpCode := 55
  const X86PsrlqRI: X86OpCode := 56
  const X86Fild32M: X86OpCode := 57
  const X86Set8R: X86OpCode := 58
  const X86Set8M: X86OpCode := 59
  const X86Set8A: X86OpCode := 60
  const X86Mfence: X86OpCode := 61
  const X86CmpxchgRR: X86OpCode := 62
  const X86LockCmpxchg8bM: X86OpCode := 63
  const X86LockCmpxchg8bA: X86OpCode := 64
  const X86XchgMR: X86OpCode := 65
  const X86Jcc8: X86OpCode := 66
  const X86Jcc32: X86OpCode := 67
  const X86Jmp8: X86OpCode := 68
  const X86Jmp32: X86OpCode := 69
  const X86JmpR: X86OpCode := 70
  const X86Jecxz8: X86OpCode := 71
  const X86JmpT: X86OpCode := 72
  const X86CallR: X86OpCode := 73
  const X86CallM: X86OpCode := 74
  const X86CallA: X86OpCode := 75
  const X86CallT: X86OpCode := 76
  const X86CallI: X86OpCode := 77
  const X86Ret: X86OpCode := 78
  const X86StartOfMethod: X86OpCode := 79
  const X86PcRelLoadRA: X86OpCode := 80
  const X86PcRelAdr: X86OpCode := 81
  const X86RepneScasw: X86OpCode := 82

  /** The pseudo opcodes the assembler looks at; they encode to nothing. */
  datatype PseudoOpcode = PseudoTargetLabel | PseudoPseudoAlign4

  /** A LIR opcode: a pseudo opcode or a table entry. */
  datatype LirOpcode = Pseudo(pseudo: PseudoOpcode) | Insn(op: X86OpCode)

  predicate IsPseudoLirOp(opcode: LirOpcode)
  {
    opcode.Pseudo?
  }

  /** The byte skeleton of an encoding: prefixes, opcode bytes, ModR/M opcode extension, short AX form. */
  datatype Skeleton = Skeleton(
    prefix1: bv8, prefix2: bv8, opcode: bv8, extraOpcode1: bv8, extraOpcode2: bv8,
    modrmOpcode: bv8, axOpcode: bv8, immediateBytes: nat)

  datatype X86EncodingMap = X86EncodingMap(opcode: X86OpCode, kind: X86EncodingKind, skeleton: Skeleton)

  /** Register numbers the encoder singles out, and the fs: segment prefix of thread-local accesses. */
  const kAxRegNum := 0
  const kSpRegNum := 4
  const kBpRegNum := 5
  const kThreadPrefix: bv8 := 0x64

  /**
   * The encoding table, one row per opcode. The shift-by-CL rows carry no
   * immediate byte here; ShiftClRowAsWritten gives them as the source
   * declares them.
   */
  function EncodingMap(op: X86OpCode): (r: X86EncodingMap)
    ensures r.opcode == op
  {
    if op == X8632BitData then X86EncodingMap(op, Data, Skeleton(0, 0, 0x00, 0, 0, 0, 0, 4))
    else if op == X86Bkpt then X86EncodingMap(op, Nullary, Skeleton(0, 0, 0xCC, 0, 0, 0, 0, 0))
    else if op == X86Nop then X86EncodingMap(op, Nop, Skeleton(0, 0, 0x90, 0, 0, 0, 0, 0))
    else if op == X86Add8RI then X86EncodingMap(op, RegImm, Skeleton(0, 0, 0x80, 0, 0, 0, 0x04, 1))
    else if op == X86Add16RI then X86EncodingMap(op, RegImm, Skeleton(0x66, 0, 0x81, 0, 0, 0, 0x05, 2))
    else if op == X86Add32MR then X86EncodingMap(op, MemReg, Skeleton(0, 0, 0x01, 0, 0, 0, 0, 0))
    else if op == X86Add32RR then X86EncodingMap(op, RegReg, Skeleton(0, 0, 0x03, 0, 0, 0, 0, 0))
    else if op == X86Add32RM then X86EncodingMap(op, RegMem, Skeleton(0, 0, 0x03, 0, 0, 0, 0, 0))
    else if op == X86Add32RI then X86EncodingMap(op, RegImm, Skeleton(0, 0, 0x81, 0, 0, 0, 0x05, 4))
    else if op == X86Add32MI then X86EncodingMap(op, MemImm, Skeleton(0, 0, 0x81, 0, 0, 0, 0, 4))
    else if op == X86Add32RI8 then X86EncodingMap(op, RegImm, Skeleton(0, 0, 0x83, 0, 0, 0, 0, 1))
    else if op == X86Sub32RI then X86EncodingMap(op, RegImm, Skeleton(0, 0, 0x81, 0, 0, 5, 0x2D, 4))
    else if op == X86Imul32RRI then X86EncodingMap(op, RegRegImm, Skeleton(0, 0, 0x69, 0, 0, 0, 0, 4))
    else if op == X86Imul32RMI then X86EncodingMap(op, RegMemImm, Skeleton(0, 0, 0x69, 0, 0, 0, 0, 4))
    else if op == X86Imul32RAI then X86EncodingMap(op, RegArrayImm, Skeleton(0, 0, 0x69, 0, 0, 0, 0, 4))
    else if op == X86Imul32RRI8 then X86EncodingMap(op, RegRegImm, Skeleton(0, 0, 0x6B, 0, 0, 0, 0, 1))
    else if op == X86Mov8MR then X86EncodingMap(op, MemReg, Skeleton(0, 0, 0x88, 0, 0, 0, 0, 0))
    else if op == X86Mov8RI then X86EncodingMap(op, MovRegImm, Skeleton(0, 0, 0xB0, 0, 0, 0, 0, 1))
    else if op == X86Mov16RI then X86EncodingMap(op, MovRegImm, Skeleton(0x66, 0, 0xB8, 0, 0, 0, 0, 2))
    else if op == X86Mov32MR then X86EncodingMap(op, MemReg, Skeleton(0, 0, 0x89, 0, 0, 0, 0, 0))
    else if op == X86Mov32AR then X86EncodingMap(op, ArrayReg, Skeleton(0, 0, 0x89, 0, 0, 0, 0, 0))
    else if op == X86Mov32TR then X86EncodingMap(op, ThreadReg, Skeleton(kThreadPrefix, 0, 0x89, 0, 0, 0, 0, 0))
    else if op == X86Mov32RR then X86EncodingMap(op, RegReg, Skeleton(0, 0, 0x8B, 0, 0, 0, 0, 0))
    else if op == X86Mov32RM then X86EncodingMap(op, RegMem, Skeleton(0, 0, 0x8B, 0, 0, 0, 0, 0))
    else if op == X86Mov32RA then X86EncodingMap(op, RegArray, Skeleton(0, 0, 0x8B, 0, 0, 0, 0, 0))
    else if op == X86Mov32RT then X86EncodingMap(op, RegThread, Skeleton(kThreadPrefix, 0, 0x8B, 0, 0, 0, 0, 0))
    else if op == X86Mov32RI then X86EncodingMap(op, MovRegImm, Skeleton(0, 0, 0xB8, 0, 0, 0, 0, 4))
    else if op == X86Mov32MI then X86EncodingMap(op, MemImm, Skeleton(0, 0, 0xC7, 0, 0, 0, 0, 4))
    else if op == X86Mov32AI then X86EncodingMap(op, ArrayImm, Skeleton(0, 0, 0xC7, 0, 0, 0, 0, 4))
    else if op == X86Mov32TI then X86EncodingMap(op, ThreadImm, Skeleton(kThreadPrefix, 0, 0xC7, 0, 0, 0, 0, 4))
    else if op == X86Lea32RM then X86EncodingMap(op, RegMem, Skeleton(0, 0, 0x8D, 0, 0, 0, 0, 0))
    else if op == X86Lea32RA then X86EncodingMap(op, RegArray, Skeleton(0, 0, 0x8D, 0, 0, 0, 0, 0))
    else if op == X86Cmov32RRC then X86EncodingMap(op, RegRegCond, Skeleton(0, 0, 0x0F, 0x40, 0, 0, 0, 0))
    else if op == X86Cmov32RMC then X86EncodingMap(op, RegMemCond, Skeleton(0, 0, 0x0F, 0x40, 0, 0, 0, 0))
    else if op == X86Sal8RI then X86EncodingMap(op, ShiftRegImm, Skeleton(0, 0, 0xC0, 0, 0, 4, 0xD1, 1))
    else if op == X86Sal8MI then X86EncodingMap(op, ShiftMemImm, Skeleton(0, 0, 0xC0, 0, 0, 4, 0xD1, 1))
    else if op == X86Sal8RC then X86EncodingMap(op, ShiftRegCl, Skeleton(0, 0, 0xD2, 0, 0, 4, 0, 0))
    else if op == X86Sal8MC then X86EncodingMap(op, ShiftMemCl, Skeleton(0, 0, 0xD2, 0, 0, 4, 0, 0))
    else if op == X86Sal16RC then X86EncodingMap(op, ShiftRegCl, Skeleton(0x66, 0, 0xD3, 0, 0, 4, 0, 0))
    else if op == X86Sal16MC then X86EncodingMap(op, ShiftMemCl, Skeleton(0x66, 0, 0xD3, 0, 0, 4, 0, 0))
    else if op == X86Sal32RI then X86EncodingMap(op, ShiftRegImm, Skeleton(0, 0, 0xC1, 0, 0, 4, 0xD1, 1))
    else if op == X86Sal32MI then X86EncodingMap(op, ShiftMemImm, Skeleton(0, 0, 0xC1, 0, 0, 4, 0xD1, 1))
    else if op == X86Sal32RC then X86EncodingMap(op, ShiftRegCl, Skeleton(0, 0, 0xD3, 0, 0, 4, 0, 0))
    else if op == X86Sal32MC then X86EncodingMap(op, ShiftMemCl, Skeleton(0, 0, 0xD3, 0, 0, 4, 0, 0))
    else if op == X86Cmc then X86EncodingMap(op, Nullary, Skeleton(0, 0, 0xF5, 0, 0, 0, 0, 0))
    else if op == X86Shld32RRI then X86EncodingMap(op, RegRegImmRev, Skeleton(0, 0, 0x0F, 0xA4, 0, 0, 0, 1))
    else if op == X86Shld32MRI then X86EncodingMap(op, MemRegImm, Skeleton(0, 0, 0x0F, 0xA4, 0, 0, 0, 1))
    else if op == X86Test32RR then X86EncodingMap(op, RegReg, Skeleton(0, 0, 0x85, 0, 0, 0, 0, 0))
    else if op == X86Not32R then X86EncodingMap(op, Reg, Skeleton(0, 0, 0xF7, 0, 0, 2, 0, 0))
    else if op == X86Not32M then X86EncodingMap(op, Mem, Skeleton(0, 0, 0xF7, 0, 0, 2, 0, 0))
    else if op == X86Not32A then X86EncodingMap(op, Array, Skeleton(0, 0, 0xF7, 0, 0, 2, 0, 0))
    else if op == X86Neg32R then X86EncodingMap(op, Reg, Skeleton(0, 0, 0xF7, 0, 0, 3, 0, 0))
    else if op == X86Cdq32Da then X86EncodingMap(op, RegOpcode, Skeleton(0, 0, 0x99, 0, 0, 0, 0, 0))
    else if op == X86Bswap32R then X86EncodingMap(op, RegOpcode, Skeleton(0, 0, 0x0F, 0xC8, 0, 0, 0, 0))
    else if op == X86Push32R then X86EncodingMap(op, RegOpcode, Skeleton(0, 0, 0x50, 0, 0, 0, 0, 0))
    else if op == X86Pop32R then X86EncodingMap(op, RegOpcode, Skeleton(0, 0, 0x58, 0, 0, 0, 0, 0))
    else if op == X86PsrlqRI then X86EncodingMap(op, RegImm, Skeleton(0x66, 0, 0x0F, 0x73, 0, 2, 0, 1))
    else if op == X86Fild32M then X86EncodingMap(op, Mem, Skeleton(0, 0, 0xDB, 0x00, 0, 0, 0, 0))
    else if op == X86Set8R then X86EncodingMap(op, RegCond, Skeleton(0, 0, 0x0F, 0x90, 0, 0, 0, 0))
    else if op == X86Set8M then X86EncodingMap(op, MemCond, Skeleton(0, 0, 0x0F, 0x90, 0, 0, 0, 0))
    else if op == X86Set8A then X86EncodingMap(op, ArrayCond, Skeleton(0, 0, 0x0F, 0x90, 0, 0, 0, 0))
    else if op == X86Mfence then X86EncodingMap(op, Reg, Skeleton(0, 0, 0x0F, 0xAE, 0, 6, 0, 0))
    else if op == X86CmpxchgRR then X86EncodingMap(op, RegRegStore, Skeleton(0, 0, 0x0F, 0xB1, 0, 0, 0, 0))
    else if op == X86LockCmpxchg8bM then X86EncodingMap(op, Mem, Skeleton(0xF0, 0, 0x0F, 0xC7, 0, 1, 0, 0))
    else if op == X86LockCmpxchg8bA then X86EncodingMap(op, Array, Skeleton(0xF0, 0, 0x0F, 0xC7, 0, 1, 0, 0))
    else if op == X86XchgMR then X86EncodingMap(op, MemReg, Skeleton(0, 0, 0x87, 0, 0, 0, 0, 0))
    else if op == X86Jcc8 then X86EncodingMap(op, Jcc, Skeleton(0, 0, 0x70, 0, 0, 0, 0, 0))
    else if op == X86Jcc32 then X86EncodingMap(op, Jcc, Skeleton(0, 0, 0x0F, 0x80, 0, 0, 0, 0))
    else if op == X86Jmp8 then X86EncodingMap(op, Jmp, Skeleton(0, 0, 0xEB, 0, 0, 0, 0, 0))
    else if op == X86Jmp32 then X86EncodingMap(op, Jmp, Skeleton(0, 0, 0xE9, 0, 0, 0, 0, 0))
    else if op == X86JmpR then X86EncodingMap(op, Jmp, Skeleton(0, 0, 0xFF, 0, 0, 4, 0, 0))
    else if op == X86Jecxz8 then X86EncodingMap(op, Jmp, Skeleton(0, 0, 0xE3, 0, 0, 0, 0, 0))
    else if op == X86JmpT then X86EncodingMap(op, Jmp, Skeleton(kThreadPrefix, 0, 0xFF, 0, 0, 4, 0, 0))
    else if op == X86CallR then X86EncodingMap(op, Call, Skeleton(0, 0, 0xE8, 0, 0, 0, 0, 0))
    else if op == X86CallM then X86EncodingMap(op, Call, Skeleton(0, 0, 0xFF, 0, 0, 2, 0, 0))
    else if op == X86CallA then X86EncodingMap(op, Call, Skeleton(0, 0, 0xFF, 0, 0, 2, 0, 0))
    else if op == X86CallT then X86EncodingMap(op, Call, Skeleton(kThreadPrefix, 0, 0xFF, 0, 0, 2, 0, 0))
    else if op == X86CallI then X86EncodingMap(op, Call, Skeleton(0, 0, 0xE8, 0, 0, 0, 0, 4))
    else if op == X86Ret then X86EncodingMap(op, Nullary, Skeleton(0, 0, 0xC3, 0, 0, 0, 0, 0))
    else if op == X86StartOfMethod then X86EncodingMap(op, Macro, Skeleton(0, 0, 0, 0, 0, 0, 0, 0))
    else if op == X86PcRelLoadRA then X86EncodingMap(op, PcRel, Skeleton(0, 0, 0x8B, 0, 0, 0, 0, 0))
    else if op == X86PcRelAdr then X86EncodingMap(op, PcRel, Skeleton(0, 0, 0xB8, 0, 0, 0, 0, 4))
    else X86EncodingMap(op, Prefix2Nullary, Skeleton(0x66, 0xF2, 0xAF, 0, 0, 0, 0, 0))
  }

  /** The table's row for X86Sub32RI, which the method-start macro emits. */
  const kSub32RIRow := X86EncodingMap(X86Sub32RI, RegImm, Skeleton(0, 0, 0x81, 0, 0, 5, 0x2D, 4))

  lemma Sub32RIRow()
    ensures EncodingMap(X86Sub32RI) == kSub32RIRow
  {
  }

  /** The shift-by-CL rows as the source declares them: with one immediate byte. */
  function ShiftClRowAsWritten(op: X86OpCode): (r: X86EncodingMap)
    requires op == X86Sal8RC || op == X86Sal8MC || op == X86Sal16RC || op == X86Sal16MC
    ensures r.kind == EncodingMap(op).kind && r.skeleton.immediateBytes == 1
  {
    var e := EncodingMap(op);
    e.(skeleton := e.skeleton.(immediateBytes := 1))
  }

  // ---------------------------------------------------------------------
  // Well-formed rows: what the emitters check of the entries they are given.

  predicate ImmediateWidth(s: Skeleton)
  {
    s.immediateBytes == 1 || s.immediateBytes == 2 || s.immediateBytes == 4
  }

  /**
   * What each kind's size rule takes for granted about a row, so that it
   * predicts what the kind's emitter appends: the emitters check the same
   * facts (their DCHECKs on the skeleton).
   */
  predicate RowWellFormed(e: X86EncodingMap)
  {
    var s := e.skeleton;
    var k := e.kind;
    && (k.Nullary? ==> s.opcode != 0x0F)
    && (k.Prefix2Nullary? ==> s.prefix1 != 0 && s.prefix2 != 0 && s.opcode != 0x0F)
    && (k.RegImm? ==> ImmediateWidth(s) && (s.axOpcode != 0 ==> s.opcode != 0x0F))
    && ((k.MemRegImm? || k.RegMemImm? || k.RegRegImm? || k.RegRegImmRev? ||
         k.MemImm? || k.ArrayImm? || k.ThreadImm?) ==> ImmediateWidth(s))
    && (k.MovRegImm? ==> s.opcode != 0x0F && ImmediateWidth(s))
    && ((k.ShiftRegImm? || k.ShiftMemImm?) ==> s.opcode != 0x0F && s.immediateBytes == 1)
    && ((k.ShiftRegCl? || k.ShiftMemCl?) ==> s.opcode != 0x0F && s.immediateBytes == 0)
    && ((k.RegCond? || k.MemCond?) ==>
          s.opcode == 0x0F && s.extraOpcode1 != 0x38 && s.extraOpcode1 != 0x3A && s.immediateBytes == 0)
    && (k.Jmp? && e.opcode == X86JmpT ==> s.immediateBytes == 0)
    && (k.Call? && e.opcode == X86CallI ==> s.prefix1 == 0 && s.opcode != 0x0F)
    && (k.Call? && (e.opcode == X86CallM || e.opcode == X86CallT) ==> s.immediateBytes == 0)
    && (k.PcRel? && e.opcode == X86PcRelLoadRA ==> s.opcode != 0x0F && s.immediateBytes == 0)
    && (k.PcRel? && e.opcode != X86PcRelLoadRA ==> s.prefix1 == 0)
    && (k.Nop? ==> e.opcode == X86Nop)
    && ((k.RegOpcode? || k.Reg? || k.Mem? || k.Array? || k.MemReg? || k.ArrayReg? ||
         k.RegReg? || k.RegRegStore? || k.RegMem? || k.RegArray? || k.RegThread? ||
         k.RegRegCond? || k.RegMemCond?) ==> s.immediateBytes == 0)
  }

  /** Every row of the table satisfies what its kind's size rule takes for granted. */
  lemma TableWellFormed(op: X86OpCode)
    ensures RowWellFormed(EncodingMap(op))
  {
    if op == X8632BitData || op == X86Bkpt || op == X86Nop {
      TableRowsWellFormed1(op);
    } else if op == X86Add8RI || op == X86Add16RI || op == X86Add32MR {
      TableRowsWellFormed2(op);
    } else if op == X86Add32RR || op == X86Add32RM || op == X86Add32RI {
      TableRowsWellFormed3(op);
    } else if op == X86Add32MI || op == X86Add32RI8 || op == X86Sub32RI {
      TableRowsWellFormed4(op);
    } else if op == X86Imul32RRI || op == X86Imul32RMI || op == X86Imul32RAI {
      TableRowsWellFormed5(op);
    } else if op == X86Imul32RRI8 || op == X86Mov8MR || op == X86Mov8RI {
      TableRowsWellFormed6(op);
    } else if op == X86Mov16RI || op == X86Mov32MR || op == X86Mov32AR {
      TableRowsWellFormed7(op);
    } else if op == X86Mov32TR || op == X86Mov32RR || op == X86Mov32RM {
      TableRowsWellFormed8(op);
    } else if op == X86Mov32RA || op == X86Mov32RT || op == X86Mov32RI {
      TableRowsWellFormed9(op);
    } else if op == X86Mov32MI || op == X86Mov32AI || op == X86Mov32TI {
      TableRowsWellFormed10(op);
    } else if op == X86Lea32RM || op == X86Lea32RA || op == X86Cmov32RRC {
      TableRowsWellFormed11(op);
    } else if op == X86Cmov32RMC || op == X86Sal8RI || op == X86Sal8MI {
      TableRowsWellFormed12(op);
    } else if op == X86Sal8RC || op == X86Sal8MC || op == X86Sal16RC {
      TableRowsWellFormed13(op);
    } else if op == X86Sal16MC || op == X86Sal32RI || op == X86Sal32MI {
      TableRowsWellFormed14(op);
    } else if op == X86Sal32RC || op == X86Sal32MC || op == X86Cmc {
      TableRowsWellFormed15(op);
    } else if op == X86Shld32RRI || op == X86Shld32MRI || op == X86Test32RR {
      TableRowsWellFormed16(op);
    } else if op == X86Not32R || op == X86Not32M || op == X86Not32A {
      TableRowsWellFormed17(op);
    } else if op == X86Neg32R || op == X86Cdq32Da || op == X86Bswap32R {
      TableRowsWellFormed18(op);
    } else if op == X86Push32R || op == X86Pop32R || op == X86PsrlqRI {
      TableRowsWellFormed19(op);
    } else if op == X86Fild32M || op == X86Set8R || op == X86Set8M {
      TableRowsWellFormed20(op);
    } else if op == X86Set8A || op == X86Mfence || op == X86CmpxchgRR {
      TableRowsWellFormed21(op);
    } else if op == X86LockCmpxchg8bM || op == X86LockCmpxchg8bA || op == X86XchgMR {
      TableRowsWellFormed22(op);
    } else if op == X86Jcc8 || op == X86Jcc32 || op == X86Jmp8 {
      TableRowsWellFormed23(op);
    } else if op == X86Jmp32 || op == X86JmpR || op == X86Jecxz8 {
      TableRowsWellFormed24(op);
    } else if op == X86JmpT || op == X86CallR || op == X86CallM {
      TableRowsWellFormed25(op);
    } else if op == X86CallA || op == X86CallT || op == X86CallI {
      TableRowsWellFormed26(op);
    } else if op == X86Ret || op == X86StartOfMethod || op == X86PcRelLoadRA {
      TableRowsWellFormed27(op);
    } else {
      TableRowsWellFormed28(op);
    }
  }

  lemma TableRowsWellFormed1(op: X86OpCode)
    requires op == X8632BitData || op == X86Bkpt || op == X86Nop
    ensures RowWellFormed(EncodingMap(op))
  {
  }

  lemma TableRowsWellFormed2(op: X86OpCode)
    requires op == X86Add8RI || op == X86Add16RI || op == X86Add32MR
    ensures RowWellFormed(EncodingMap(op))
  {
  }

  lemma TableRowsWellFormed3(op: X86OpCode)
    requires op == X86Add32RR || op == X86Add32RM || op == X86Add32RI
    ensures RowWellFormed(EncodingMap(op))
  {
  }

  lemma TableRowsWellFormed4(op: X86OpCode)
    requires op == X86Add32MI || op == X86Add32RI8 || op == X86Sub32RI
    ensures RowWellFormed(EncodingMap(op))
  {
  }

  lemma TableRowsWellFormed5(op: X86OpCode)
    requires op == X86Imul32RRI || op == X86Imul32RMI || op == X86Imul32RAI
    ensures RowWellFormed(EncodingMap(op))
  {
  }

  lemma TableRowsWellFormed6(op: X86OpCode)
    requires op == X86Imul32RRI8 || op == X86Mov8MR || op == X86Mov8RI
    ensures RowWellFormed(EncodingMap(op))
  {
  }

  lemma TableRowsWellFormed7(op: X86OpCode)
    requires op == X86Mov16RI || op == X86Mov32MR || op == X86Mov32AR
    ensures RowWellFormed(EncodingMap(op))
  {
  }

  lemma TableRowsWellFormed8(op: X86OpCode)
    requires op == X86Mov32TR || op == X86Mov32RR || op == X86Mov32RM
    ensures RowWellFormed(EncodingMap(op))
  {
  }

  lemma TableRowsWellFormed9(op: X86OpCode)
    requires op == X86Mov32RA || op == X86Mov32RT || op == X86Mov32RI
    ensures RowWellFormed(EncodingMap(op))
  {
  }

  lemma TableRowsWellFormed10(op: X86OpCode)
    requires op == X86Mov32MI || op == X86Mov32AI || op == X86Mov32TI
    ensures RowWellFormed(EncodingMap(op))
  {
  }

  lemma TableRowsWellFormed11(op: X86OpCode)
    requires op == X86Lea32RM || op == X86Lea32RA || op == X86Cmov32RRC
    ensures RowWellFormed(EncodingMap(op))
  {
  }

  lemma TableRowsWellFormed12(op: X86OpCode)
    requires op == X86Cmov32RMC || op == X86Sal8RI || op == X86Sal8MI
    ensures RowWellFormed(EncodingMap(op))
  {
  }

  lemma TableRowsWellFormed13(op: X86OpCode)
    requires op == X86Sal8RC || op == X86Sal8MC || op == X86Sal16RC
    ensures RowWellFormed(EncodingMap(op))
  {
  }

  lemma TableRowsWellFormed14(op: X86OpCode)
    requires op == X86Sal16MC || op == X86Sal32RI || op == X86Sal32MI
    ensures RowWellFormed(EncodingMap(op))
  {
  }

  lemma TableRowsWellFormed15(op: X86OpCode)
    requires op == X86Sal32RC || op == X86Sal32MC || op == X86Cmc
    ensures RowWellFormed(EncodingMap(op))
  {
  }

  lemma TableRowsWellFormed16(op: X86OpCode)
    requires op == X86Shld32RRI || op == X86Shld32MRI || op == X86Test32RR
    ensures RowWellFormed(EncodingMap(op))
  {
  }

  lemma TableRowsWellFormed17(op: X86OpCode)
    requires op == X86Not32R || op == X86Not32M || op == X86Not32A
    ensures RowWellFormed(EncodingMap(op))
  {
  }

  lemma TableRowsWellFormed18(op: X86OpCode)
    requires op == X86Neg32R || op == X86Cdq32Da || op == X86Bswap32R
    ensures RowWellFormed(EncodingMap(op))
  {
  }

  lemma TableRowsWellFormed19(op: X86OpCode)
    requires op == X86Push32R || op == X86Pop32R || op == X86PsrlqRI
    ensures RowWellFormed(EncodingMap(op))
  {
  }

  lemma TableRowsWellFormed20(op: X86OpCode)
    requires op == X86Fild32M || op == X86Set8R || op == X86Set8M
    ensures RowWellFormed(EncodingMap(op))
  {
  }

  lemma TableRowsWellFormed21(op: X86OpCode)
    requires op == X86Set8A || op == X86Mfence || op == X86CmpxchgRR
    ensures RowWellFormed(EncodingMap(op))
  {
  }

  lemma TableRowsWellFormed22(op: X86OpCode)
    requires op == X86LockCmpxchg8bM || op == X86LockCmpxchg8bA || op == X86XchgMR
    ensures RowWellFormed(EncodingMap(op))
  {
  }

  lemma TableRowsWellFormed23(op: X86OpCode)
    requires op == X86Jcc8 || op == X86Jcc32 || op == X86Jmp8
    ensures RowWellFormed(EncodingMap(op))
  {
  }

  lemma TableRowsWellFormed24(op: X86OpCode)
    requires op == X86Jmp32 || op == X86JmpR || op == X86Jecxz8
    ensures RowWellFormed(EncodingMap(op))
  {
  }

  lemma TableRowsWellFormed25(op: X86OpCode)
    requires op == X86JmpT || op == X86CallR || op == X86CallM
    ensures RowWellFormed(EncodingMap(op))
  {
  }

  lemma TableRowsWellFormed26(op: X86OpCode)
    requires op == X86CallA || op == X86CallT || op == X86CallI
    ensures RowWellFormed(EncodingMap(op))
  {
  }

  lemma TableRowsWellFormed27(op: X86OpCode)
    requires op == X86Ret || op == X86StartOfMethod || op == X86PcRelLoadRA
    ensures RowWellFormed(EncodingMap(op))
  {
  }

  lemma TableRowsWellFormed28(op: X86OpCode)
    requires op == X86PcRelAdr || op == X86RepneScasw
    ensures RowWellFormed(EncodingMap(op))
  {
  }

  // ---------------------------------------------------------------------
  // Sizes.

  /** RegStorage::RegNum as a byte-sized field. */
  function RegBits(reg: int): (r: bv8)
    ensures r < 32
  {
    RegStorage.RegNum(reg) as bv8
  }

  /** The mod field for a memory operand: no displacement, 8 bits or 32 bits. */
  function ModrmForDisp(base: int, disp: int): (r: bv8)
    ensures r <= 2
    ensures r == 0 <==> disp == 0 && RegStorage.RegNum(base) != kBpRegNum
    ensures r == 1 <==> (disp != 0 || RegStorage.RegNum(base) == kBpRegNum) && IsSimm8(disp)
  {
    if disp == 0 && RegStorage.RegNum(base) != kBpRegNum then 0
    else if IsSimm8(disp) then 1
    else 2
  }

  /** The number of displacement bytes a memory operand takes. */
  function DispSize(base: int, disp: int): nat
  {
    if disp != 0 || RegStorage.RegNum(base) == kBpRegNum then
      (if IsSimm8(disp) then 1 else 4)
    else 0
  }

  /**
   * The size of an instruction with a ModR/M byte: prefixes, opcode bytes,
   * the ModR/M byte, a SIB byte when asked for or when the base is SP, the
   * displacement and the immediate.
   */
  function ComputeSize(e: X86EncodingMap, base: int, displacement: int, hasSib: bool): (r: nat)
    ensures r == |PrefixBytes(e)| + |OpcodeBytes(e)| + 1 +
                 (if hasSib || RegStorage.RegNum(base) == kSpRegNum then 1 else 0) +
                 |DispBytes(base, displacement)| + e.skeleton.immediateBytes
    ensures r >= 2
  {
    var s := e.skeleton;
    var prefixes := if s.prefix1 > 0 then (if s.prefix2 > 0 then 2 else 1) else 0;
    var opcodes := if s.opcode == 0x0F then
                     (if s.extraOpcode1 == 0x38 || s.extraOpcode1 == 0x3A then 3 else 2)
                   else 1;
    var sib := if hasSib || RegStorage.RegNum(base) == kSpRegNum then 1 else 0;
    prefixes + opcodes + 1 + sib + DispSize(base, displacement) + s.immediateBytes
  }

  /** A LIR's fixup kind, as far as this assembler distinguishes them. */
  datatype FixupKind = FixupNone | FixupLabel | FixupLoad

  /**
   * A LIR instruction: opcode, the five operands, the assigned offset, the
   * flags this assembler reads (size, is_nop, fixup) and the index of its
   * branch or load target in the instruction list.
   */
  datatype Lir = Lir(
    opcode: LirOpcode, op0: int, op1: int, op2: int, op3: int, op4: int,
    offset: int, size: int, isNop: bool, fixup: FixupKind, target: int)

  /** A 32-bit displacement stand-in: every size rule that uses it gets four displacement bytes. */
  const kDisp32 := 0x12345678

  /** The size an instruction is predicted to take, looked up by its opcode. */
  function GetInsnSize(lir: Lir): int
    requires !IsPseudoLirOp(lir.opcode)
  {
    EntryInsnSize(EncodingMap(lir.opcode.op), lir)
  }

  /** The size an instruction with table entry e is predicted to take, by encoding kind. */
  function EntryInsnSize(e: X86EncodingMap, lir: Lir): int
  {
    match e.kind
    case Data => 4
    case Nop => lir.op0
    case Nullary => 1
    case Prefix2Nullary => 3
    case RegOpcode => ComputeSize(e, 0, 0, false) - 1
    case Reg => ComputeSize(e, 0, 0, false)
    case Mem => ComputeSize(e, lir.op0, lir.op1, false)
    case Array => ComputeSize(e, lir.op0, lir.op3, true)
    case MemReg => ComputeSize(e, lir.op0, lir.op1, false)
    case MemRegImm => ComputeSize(e, lir.op0, lir.op1, false)
    case ArrayReg => ComputeSize(e, lir.op0, lir.op3, true)
    case ThreadReg => ComputeSize(e, 0, lir.op0, false)
    case RegReg => ComputeSize(e, 0, 0, false)
    case RegRegStore => ComputeSize(e, 0, 0, false)
    case RegMem => ComputeSize(e, lir.op1, lir.op2, false)
    case RegArray => ComputeSize(e, lir.op1, lir.op4, true)
    case RegThread => ComputeSize(e, 0, kDisp32, false)
    case RegImm =>
      var size := ComputeSize(e, 0, 0, false);
      if e.skeleton.axOpcode == 0 then size
      else size - (if RegStorage.RegNum(lir.op0) == kAxRegNum then 1 else 0)
    case MemImm => ComputeSize(e, lir.op0, lir.op1, false)
    case ArrayImm => ComputeSize(e, lir.op0, lir.op3, true)
    case ThreadImm => ComputeSize(e, 0, kDisp32, false)
    case RegRegImm => ComputeSize(e, 0, 0, false)
    case RegRegImmRev => ComputeSize(e, 0, 0, false)
    case RegMemImm => ComputeSize(e, lir.op1, lir.op2, false)
    case RegArrayImm => ComputeSize(e, lir.op1, lir.op4, true)
    case MovRegImm => ComputeSize(e, 0, 0, false) - 1
    case ShiftRegImm => ComputeSize(e, 0, 0, false) - (if lir.op1 == 1 then 1 else 0)
    case ShiftMemImm => ComputeSize(e, lir.op0, lir.op1, false) - (if lir.op2 == 1 then 1 else 0)
    case ShiftArrayImm => ComputeSize(e, lir.op0, lir.op3, true) - (if lir.op4 == 1 then 1 else 0)
    case ShiftRegCl => ComputeSize(e, 0, 0, false)
    case ShiftMemCl => ComputeSize(e, lir.op0, lir.op1, false)
    case ShiftArrayCl => ComputeSize(e, lir.op0, lir.op3, true)
    case RegCond => ComputeSize(e, 0, 0, false)
    case MemCond => ComputeSize(e, lir.op0, lir.op1, false)
    case ArrayCond => ComputeSize(e, lir.op0, lir.op3, true)
    case RegRegCond => ComputeSize(e, 0, 0, false)
    case RegMemCond => ComputeSize(e, lir.op1, lir.op2, false)
    case Jcc => if e.opcode == X86Jcc8 then 2 else 6
    case Jmp =>
      if e.opcode == X86Jmp8 || e.opcode == X86Jecxz8 then 2
      else if e.opcode == X86Jmp32 then 5
      else if e.opcode == X86JmpT then ComputeSize(e, 0, kDisp32, false)
      else 2
    case Call =>
      if e.opcode == X86CallI then 5
      else if e.opcode == X86CallR then 2
      else if e.opcode == X86CallM then ComputeSize(e, lir.op0, lir.op1, false)
      else if e.opcode == X86CallA then ComputeSize(e, lir.op0, lir.op3, true)
      else if e.opcode == X86CallT then ComputeSize(e, 0, kDisp32, false)
      else 0
    case PcRel =>
      if e.opcode == X86PcRelLoadRA then ComputeSize(e, lir.op1, kDisp32, true) else 5
    case Macro =>
      5 + 1 + ComputeSize(kSub32RIRow, 0, 0, false) -
      (if RegStorage.RegNum(lir.op0) == kAxRegNum then 1 else 0)
  }

  // ---------------------------------------------------------------------
  // The bytes each emitter appends.

  function PrefixBytes(e: X86EncodingMap): seq<bv8>
  {
    if e.skeleton.prefix1 != 0 then
      [e.skeleton.prefix1] + (if e.skeleton.prefix2 != 0 then [e.skeleton.prefix2] else [])
    else []
  }

  function OpcodeBytes(e: X86EncodingMap): seq<bv8>
  {
    var s := e.skeleton;
    [s.opcode] +
    (if s.opcode == 0x0F then
       [s.extraOpcode1] + (if s.extraOpcode1 == 0x38 || s.extraOpcode1 == 0x3A then [s.extraOpcode2] else [])
     else [])
  }

  function PrefixAndOpcodeBytes(e: X86EncodingMap): (r: seq<bv8>)
    ensures |r| > 0
  {
    PrefixBytes(e) + OpcodeBytes(e)
  }

  /** A ModR/M (or SIB) byte from its three fields: two bits, three bits, three bits. */
  function ModrmByte(mod: bv8, reg: bv8, rm: bv8): bv8
  {
    (mod << 6) | (reg << 3) | rm
  }

  /** The fields of a ModR/M or SIB byte are read back from it. */
  lemma ModrmFields(mod: bv8, reg: bv8, rm: bv8)
    requires mod < 4 && reg < 8 && rm < 8
    ensures ModrmByte(mod, reg, rm) >> 6 == mod
    ensures (ModrmByte(mod, reg, rm) >> 3) & 7 == reg
    ensures ModrmByte(mod, reg, rm) & 7 == rm
  {
  }

  /** The SIB byte that lets SP be a base: no index, scale 1. */
  const kSpSib: bv8 := 0x24

  function DispBytes(base: int, disp: int): (r: seq<bv8>)
    ensures |r| == DispSize(base, disp)
    ensures |r| == 0 <==> ModrmForDisp(base, disp) == 0
    ensures |r| == 1 <==> ModrmForDisp(base, disp) == 1
    ensures |r| == 4 <==> ModrmForDisp(base, disp) == 2
  {
    if disp == 0 && RegStorage.RegNum(base) != kBpRegNum then []
    else if IsSimm8(disp) then [Lo8(disp)]
    else LittleEndian(disp, 4)
  }

  function ModrmDispBytes(regOrOpcode: int, base: int, disp: int): (r: seq<bv8>)
    ensures |r| == 1 + (if RegStorage.RegNum(base) == kSpRegNum then 1 else 0) + DispSize(base, disp)
  {
    [ModrmByte(ModrmForDisp(base, disp), RegBits(regOrOpcode), RegBits(base))] +
    (if RegStorage.RegNum(base) == kSpRegNum then [kSpSib] else []) +
    DispBytes(base, disp)
  }

  function SibByte(scale: int, index: int, base: int): bv8
  {
    ModrmByte(Lo8(scale), RegBits(index), RegBits(base))
  }

  function ModrmSibDispBytes(regOrOpcode: int, base: int, index: int, scale: int, disp: int): (r: seq<bv8>)
    ensures |r| == 2 + DispSize(base, disp)
  {
    [ModrmByte(ModrmForDisp(base, disp), RegBits(regOrOpcode), kSpRegNum as bv8),
     SibByte(scale, index, base)] +
    DispBytes(base, disp)
  }

  /** The immediate, least significant byte first; widths other than 1, 2 and 4 are a fatal error. */
  function ImmBytes(e: X86EncodingMap, imm: int): (r: seq<bv8>)
    requires ImmediateWidth(e.skeleton)
    ensures |r| == e.skeleton.immediateBytes
  {
    LittleEndian(imm, e.skeleton.immediateBytes)
  }

  /** Adds v to the last byte, as the +r and +cc opcode forms do. */
  function AddToLast(s: seq<bv8>, v: bv8): (r: seq<bv8>)
    requires |s| > 0
    ensures |r| == |s| && r[|s| - 1] == s[|s| - 1] + v
    ensures forall i {:trigger r[i]} :: 0 <= i < |s| - 1 ==> r[i] == s[i]
  {
    s[|s| - 1 := s[|s| - 1] + v]
  }

  function OpRegOpcodeBytes(e: X86EncodingMap, reg: int): (r: seq<bv8>)
    ensures |r| + 1 + e.skeleton.immediateBytes == ComputeSize(e, 0, 0, false)
  {
    AddToLast(PrefixAndOpcodeBytes(e), RegBits(reg))
  }

  function OpRegBytes(e: X86EncodingMap, reg: int): (r: seq<bv8>)
    ensures |r| + e.skeleton.immediateBytes == ComputeSize(e, 0, 0, false)
  {
    PrefixAndOpcodeBytes(e) + [ModrmByte(3, e.skeleton.modrmOpcode, RegBits(reg))]
  }

  /** A memory operand with the opcode extension in the reg field. */
  function OpMemBytes(e: X86EncodingMap, base: int, disp: int): (r: seq<bv8>)
    ensures |r| + e.skeleton.immediateBytes == ComputeSize(e, base, disp, false)
  {
    PrefixAndOpcodeBytes(e) + ModrmDispBytes(e.skeleton.modrmOpcode as int, base, disp)
  }

  function OpArrayBytes(e: X86EncodingMap, base: int, index: int, scale: int, disp: int): (r: seq<bv8>)
    ensures |r| + e.skeleton.immediateBytes == ComputeSize(e, base, disp, true)
  {
    PrefixAndOpcodeBytes(e) + ModrmSibDispBytes(e.skeleton.modrmOpcode as int, base, index, scale, disp)
  }

  function MemRegBytes(e: X86EncodingMap, base: int, disp: int, reg: int): (r: seq<bv8>)
    ensures |r| + e.skeleton.immediateBytes == ComputeSize(e, base, disp, false)
  {
    PrefixAndOpcodeBytes(e) + ModrmDispBytes(reg, base, disp)
  }

  function RegArrayBytes(e: X86EncodingMap, reg: int, base: int, index: int, scale: int, disp: int): (r: seq<bv8>)
    ensures |r| + e.skeleton.immediateBytes == ComputeSize(e, base, disp, true)
  {
    PrefixAndOpcodeBytes(e) + ModrmSibDispBytes(reg, base, index, scale, disp)
  }

  function ArrayImmBytes(e: X86EncodingMap, base: int, index: int, scale: int, disp: int, imm: int): (r: seq<bv8>)
    requires ImmediateWidth(e.skeleton)
    ensures |r| == ComputeSize(e, base, disp, true)
  {
    OpArrayBytes(e, base, index, scale, disp) + ImmBytes(e, imm)
  }

  /** A thread-local operand: mod 0 with rm 5 is a bare 32-bit displacement off the fs: segment. */
  function RegThreadBytes(e: X86EncodingMap, reg: int, disp: int): (r: seq<bv8>)
    ensures |r| + e.skeleton.immediateBytes == ComputeSize(e, 0, kDisp32, false)
  {
    PrefixAndOpcodeBytes(e) + [ModrmByte(0, RegBits(reg), kBpRegNum as bv8)] + LittleEndian(disp, 4)
  }

  function RegRegBytes(e: X86EncodingMap, reg1: int, reg2: int): (r: seq<bv8>)
    ensures |r| + e.skeleton.immediateBytes == ComputeSize(e, 0, 0, false)
  {
    PrefixAndOpcodeBytes(e) + [ModrmByte(3, RegBits(reg1), RegBits(reg2))]
  }

  function RegRegImmBytes(e: X86EncodingMap, reg1: int, reg2: int, imm: int): (r: seq<bv8>)
    requires ImmediateWidth(e.skeleton)
    ensures |r| == ComputeSize(e, 0, 0, false)
  {
    RegRegBytes(e, reg1, reg2) + ImmBytes(e, imm)
  }

  function RegMemImmBytes(e: X86EncodingMap, reg: int, base: int, disp: int, imm: int): (r: seq<bv8>)
    requires ImmediateWidth(e.skeleton)
    ensures |r| == ComputeSize(e, base, disp, false)
  {
    MemRegBytes(e, base, disp, reg) + ImmBytes(e, imm)
  }

  /** A register and an immediate; with AX and a short form, the AX opcode replaces opcode and ModR/M. */
  function RegImmBytes(e: X86EncodingMap, reg: int, imm: int): (r: seq<bv8>)
    requires ImmediateWidth(e.skeleton)
    ensures |r| == ComputeSize(e, 0, 0, false) -
              (if RegStorage.RegNum(reg) == kAxRegNum && e.skeleton.axOpcode != 0 then |OpcodeBytes(e)| else 0)
  {
    PrefixBytes(e) +
    (if RegStorage.RegNum(reg) == kAxRegNum && e.skeleton.axOpcode != 0 then [e.skeleton.axOpcode]
     else OpcodeBytes(e) + [ModrmByte(3, e.skeleton.modrmOpcode, RegBits(reg))]) +
    ImmBytes(e, imm)
  }

  function MemImmBytes(e: X86EncodingMap, base: int, disp: int, imm: int): (r: seq<bv8>)
    requires ImmediateWidth(e.skeleton)
    ensures |r| == ComputeSize(e, base, disp, false)
  {
    OpMemBytes(e, base, disp) + ImmBytes(e, imm)
  }

  function ThreadImmBytes(e: X86EncodingMap, disp: int, imm: int): (r: seq<bv8>)
    requires ImmediateWidth(e.skeleton)
    ensures |r| == ComputeSize(e, 0, kDisp32, false)
  {
    RegThreadBytes(e, e.skeleton.modrmOpcode as int, disp) + ImmBytes(e, imm)
  }

  /** The register is added to the one-byte opcode (the B0+r and B8+r forms), then the immediate. */
  function MovRegImmBytes(e: X86EncodingMap, reg: int, imm: int): (r: seq<bv8>)
    requires ImmediateWidth(e.skeleton)
    ensures |r| == ComputeSize(e, 0, 0, false) - |OpcodeBytes(e)|
  {
    PrefixBytes(e) + [e.skeleton.opcode + RegBits(reg)] + ImmBytes(e, imm)
  }

  /** A shift by one uses the short form held in the AX opcode slot and takes no immediate byte. */
  function ShiftRegImmBytes(e: X86EncodingMap, reg: int, imm: int): (r: seq<bv8>)
    ensures |r| == |PrefixBytes(e)| + 2 + (if imm != 1 then 1 else 0)
  {
    PrefixBytes(e) + [if imm != 1 then e.skeleton.opcode else e.skeleton.axOpcode] +
    [ModrmByte(3, e.skeleton.modrmOpcode, RegBits(reg))] +
    (if imm != 1 then [Lo8(imm)] else [])
  }

  function ShiftMemImmBytes(e: X86EncodingMap, base: int, disp: int, imm: int): (r: seq<bv8>)
    ensures |r| == |PrefixBytes(e)| + 2 + (if RegStorage.RegNum(base) == kSpRegNum then 1 else 0) + DispSize(base, disp) + (if imm != 1 then 1 else 0)
  {
    PrefixBytes(e) + [if imm != 1 then e.skeleton.opcode else e.skeleton.axOpcode] +
    ModrmDispBytes(e.skeleton.modrmOpcode as int, base, disp) +
    (if imm != 1 then [Lo8(imm)] else [])
  }

  function ShiftRegClBytes(e: X86EncodingMap, reg: int): (r: seq<bv8>)
    ensures |r| == |PrefixBytes(e)| + 2
  {
    PrefixBytes(e) + [e.skeleton.opcode] + [ModrmByte(3, e.skeleton.modrmOpcode, RegBits(reg))]
  }

  function ShiftMemClBytes(e: X86EncodingMap, base: int, disp: int): (r: seq<bv8>)
    ensures |r| == |PrefixBytes(e)| + 2 + (if RegStorage.RegNum(base) == kSpRegNum then 1 else 0) + DispSize(base, disp)
  {
    PrefixBytes(e) + [e.skeleton.opcode] + ModrmDispBytes(e.skeleton.modrmOpcode as int, base, disp)
  }

  /** SETcc: 0F 90|cc, then the operand. */
  function RegCondBytes(e: X86EncodingMap, reg: int, condition: int): (r: seq<bv8>)
    ensures |r| == |PrefixBytes(e)| + 3
  {
    PrefixBytes(e) + [0x0F, 0x90 | Lo8(condition)] + [ModrmByte(3, e.skeleton.modrmOpcode, RegBits(reg))]
  }

  function MemCondBytes(e: X86EncodingMap, base: int, disp: int, condition: int): (r: seq<bv8>)
    ensures |r| == |PrefixBytes(e)| + 3 + (if RegStorage.RegNum(base) == kSpRegNum then 1 else 0) + DispSize(base, disp)
  {
    PrefixBytes(e) + [0x0F, 0x90 | Lo8(condition)] + ModrmDispBytes(e.skeleton.modrmOpcode as int, base, disp)
  }

  /** CMOVcc: the condition is added to the last opcode byte. */
  function RegRegCondBytes(e: X86EncodingMap, reg1: int, reg2: int, condition: int): (r: seq<bv8>)
    ensures |r| == |PrefixAndOpcodeBytes(e)| + 1
  {
    AddToLast(PrefixAndOpcodeBytes(e), Lo8(condition)) + [ModrmByte(3, RegBits(reg1), RegBits(reg2))]
  }

  function RegMemCondBytes(e: X86EncodingMap, reg: int, base: int, disp: int, condition: int): (r: seq<bv8>)
    ensures |r| == |PrefixAndOpcodeBytes(e)| + 1 + (if RegStorage.RegNum(base) == kSpRegNum then 1 else 0) + DispSize(base, disp)
  {
    AddToLast(PrefixAndOpcodeBytes(e), Lo8(condition)) + ModrmDispBytes(reg, base, disp)
  }

  /** JMP rel8, JMP rel32, JECXZ rel8, or an indirect JMP through the register held in `rel`. */
  function JmpBytes(e: X86EncodingMap, rel: int): (r: seq<bv8>)
    ensures |r| == if e.opcode == X86Jmp32 then 5 else 2
  {
    if e.opcode == X86Jmp8 then [0xEB, Lo8(rel)]
    else if e.opcode == X86Jmp32 then [0xE9] + LittleEndian(rel, 4)
    else if e.opcode == X86Jecxz8 then [0xE3, Lo8(rel)]
    else [e.skeleton.opcode, ModrmByte(3, e.skeleton.modrmOpcode, RegBits(rel))]
  }

  /** Jcc rel8 (70|cc) or Jcc rel32 (0F 80|cc). */
  function JccBytes(e: X86EncodingMap, rel: int, cc: int): (r: seq<bv8>)
    ensures |r| == if e.opcode == X86Jcc8 then 2 else 6
  {
    if e.opcode == X86Jcc8 then [0x70 | Lo8(cc), Lo8(rel)]
    else [0x0F, 0x80 | Lo8(cc)] + LittleEndian(rel, 4)
  }

  function CallImmediateBytes(e: X86EncodingMap, disp: int): (r: seq<bv8>)
    ensures |r| == |PrefixAndOpcodeBytes(e)| + 4
  {
    PrefixAndOpcodeBytes(e) + LittleEndian(disp, 4)
  }

  function CallThreadBytes(e: X86EncodingMap, disp: int): (r: seq<bv8>)
    ensures |r| + e.skeleton.immediateBytes == ComputeSize(e, 0, kDisp32, false)
  {
    RegThreadBytes(e, e.skeleton.modrmOpcode as int, disp)
  }

  /**
   * A load from a switch table (PcRelLoadRA: [base + index * scale + table])
   * or the table's address (PcRelAdr: B8+r imm32). `tableOffset` is the
   * offset of the embedded table the operand designates.
   */
  function PcRelBytes(e: X86EncodingMap, reg: int, base: int, index: int, scale: int, tableOffset: int): (r: seq<bv8>)
    ensures |r| == |PrefixBytes(e)| + (if e.opcode == X86PcRelLoadRA then 3 else 1) + 4
  {
    PrefixBytes(e) +
    (if e.opcode == X86PcRelLoadRA then
       [e.skeleton.opcode, ModrmByte(2, RegBits(reg), kSpRegNum as bv8), SibByte(scale, index, base)]
     else [e.skeleton.opcode + RegBits(reg)]) +
    LittleEndian(tableOffset, 4)
  }

  /** StartOfMethod: call +0; pop reg; sub reg, (offset + 5), leaving the method's address in reg. */
  function MacroBytes(reg: int, offset: int): seq<bv8>
  {
    [0xE8, 0, 0, 0, 0] + [0x58 + RegBits(reg)] +
    RegImmBytes(kSub32RIRow, RegStorage.RegNum(reg), offset + 5)
  }

  /** An encoding with no emitter: one int3 (0xCC) per predicted byte. */
  function UnimplementedBytes(size: int): (r: seq<bv8>)
    ensures |r| == if size < 0 then 0 else size
    ensures forall i :: 0 <= i < |r| ==> r[i] == 0xCC
  {
    seq(if size < 0 then 0 else size, _ => 0xCC)
  }

  /** The bytes appended for one instruction, looked up by its opcode. */
  function InsnBytes(lir: Lir): seq<bv8>
    requires !IsPseudoLirOp(lir.opcode)
  {
    TableWellFormed(lir.opcode.op);
    EntryInsnBytes(EncodingMap(lir.opcode.op), lir)
  }

  /** The bytes appended for an instruction with table entry e, by encoding kind. */
  function EntryInsnBytes(e: X86EncodingMap, lir: Lir): seq<bv8>
    requires RowWellFormed(e)
  {
    match e.kind
    case Data => LittleEndian(lir.op0, 4)
    case Nullary => OpcodeBytes(e)
    case Prefix2Nullary => PrefixAndOpcodeBytes(e)
    case RegOpcode => OpRegOpcodeBytes(e, lir.op0)
    case Reg => OpRegBytes(e, lir.op0)
    case Mem => OpMemBytes(e, lir.op0, lir.op1)
    case Array => OpArrayBytes(e, lir.op0, lir.op1, lir.op2, lir.op3)
    case MemReg => MemRegBytes(e, lir.op0, lir.op1, lir.op2)
    case MemImm => MemImmBytes(e, lir.op0, lir.op1, lir.op2)
    case ArrayImm => ArrayImmBytes(e, lir.op0, lir.op1, lir.op2, lir.op3, lir.op4)
    case ArrayReg => RegArrayBytes(e, lir.op4, lir.op0, lir.op1, lir.op2, lir.op3)
    case RegMem => MemRegBytes(e, lir.op1, lir.op2, lir.op0)
    case RegArray => RegArrayBytes(e, lir.op0, lir.op1, lir.op2, lir.op3, lir.op4)
    case RegThread => RegThreadBytes(e, lir.op0, lir.op1)
    case RegReg => RegRegBytes(e, lir.op0, lir.op1)
    case RegRegStore => RegRegBytes(e, lir.op1, lir.op0)
    case RegRegImmRev => RegRegImmBytes(e, lir.op1, lir.op0, lir.op2)
    case MemRegImm => RegMemImmBytes(e, lir.op2, lir.op0, lir.op1, lir.op3)
    case RegRegImm => RegRegImmBytes(e, lir.op0, lir.op1, lir.op2)
    case RegMemImm => RegMemImmBytes(e, lir.op0, lir.op1, lir.op2, lir.op3)
    case RegImm => RegImmBytes(e, lir.op0, lir.op1)
    case ThreadImm => ThreadImmBytes(e, lir.op0, lir.op1)
    case MovRegImm => MovRegImmBytes(e, lir.op0, lir.op1)
    case ShiftRegImm => ShiftRegImmBytes(e, lir.op0, lir.op1)
    case ShiftMemImm => ShiftMemImmBytes(e, lir.op0, lir.op1, lir.op2)
    case ShiftRegCl => ShiftRegClBytes(e, lir.op0)
    case ShiftMemCl => ShiftMemClBytes(e, lir.op0, lir.op1)
    case RegCond => RegCondBytes(e, lir.op0, lir.op1)
    case MemCond => MemCondBytes(e, lir.op0, lir.op1, lir.op2)
    case RegRegCond => RegRegCondBytes(e, lir.op0, lir.op1, lir.op2)
    case RegMemCond => RegMemCondBytes(e, lir.op0, lir.op1, lir.op2, lir.op3)
    case Jmp => if e.opcode == X86JmpT then CallThreadBytes(e, lir.op0) else JmpBytes(e, lir.op0)
    case Jcc => JccBytes(e, lir.op0, lir.op1)
    case Call =>
      if e.opcode == X86CallI then CallImmediateBytes(e, lir.op0)
      else if e.opcode == X86CallM then OpMemBytes(e, lir.op0, lir.op1)
      else if e.opcode == X86CallT then CallThreadBytes(e, lir.op0)
      else UnimplementedBytes(EntryInsnSize(e, lir))
    case PcRel => PcRelBytes(e, lir.op0, lir.op1, lir.op2, lir.op3, if e.opcode == X86PcRelLoadRA then lir.op4 else lir.op1)
    case Macro => MacroBytes(lir.op0, lir.offset)
    case Nop => UnimplementedBytes(EntryInsnSize(e, lir))
    case ThreadReg => UnimplementedBytes(EntryInsnSize(e, lir))
    case RegArrayImm => UnimplementedBytes(EntryInsnSize(e, lir))
    case ShiftArrayImm => UnimplementedBytes(EntryInsnSize(e, lir))
    case ShiftArrayCl => UnimplementedBytes(EntryInsnSize(e, lir))
    case ArrayCond => UnimplementedBytes(EntryInsnSize(e, lir))
  }

  /**
   * The size check after each instruction never fails: on a well-formed
   * row, the bytes appended are exactly as many as predicted (a Nop's
   * length operand is taken to be non-negative).
   */
  lemma InsnBytesLength(lir: Lir)
    requires !IsPseudoLirOp(lir.opcode)
    requires lir.opcode == Insn(X86Nop) ==> lir.op0 >= 0
    ensures |InsnBytes(lir)| == GetInsnSize(lir)
  {
    TableWellFormed(lir.opcode.op);
    EntryInsnBytesLength(EncodingMap(lir.opcode.op), lir);
  }

  lemma EntryInsnBytesLength(e: X86EncodingMap, lir: Lir)
    requires RowWellFormed(e)
    requires e.kind.Nop? ==> lir.op0 >= 0
    ensures |EntryInsnBytes(e, lir)| == EntryInsnSize(e, lir)
  {
    if e.kind.Data? || e.kind.Nop? || e.kind.Nullary? || e.kind.Prefix2Nullary? || e.kind.RegOpcode? || e.kind.Reg? || e.kind.RegReg? || e.kind.RegRegStore? {
      PlainKindsBytesLength(e, lir);
    } else if e.kind.Mem? || e.kind.Array? || e.kind.MemReg? || e.kind.MemRegImm? || e.kind.ArrayReg? || e.kind.ThreadReg? || e.kind.RegMem? || e.kind.RegArray? || e.kind.RegThread? {
      MemoryKindsBytesLength(e, lir);
    } else if e.kind.RegImm? || e.kind.MemImm? || e.kind.ArrayImm? || e.kind.ThreadImm? || e.kind.RegRegImm? || e.kind.RegRegImmRev? || e.kind.RegMemImm? || e.kind.RegArrayImm? || e.kind.MovRegImm? {
      ImmediateKindsBytesLength(e, lir);
    } else if e.kind.ShiftRegImm? || e.kind.ShiftMemImm? || e.kind.ShiftArrayImm? || e.kind.ShiftRegCl? || e.kind.ShiftMemCl? || e.kind.ShiftArrayCl? {
      ShiftKindsBytesLength(e, lir);
    } else {
      BranchKindsBytesLength(e, lir);
    }
  }

  /** The size rule holds for the kinds without a memory operand or an immediate. */
  lemma PlainKindsBytesLength(e: X86EncodingMap, lir: Lir)
    requires RowWellFormed(e)
    requires e.kind.Data? || e.kind.Nop? || e.kind.Nullary? || e.kind.Prefix2Nullary? || e.kind.RegOpcode? || e.kind.Reg? || e.kind.RegReg? || e.kind.RegRegStore?
    requires e.kind.Nop? ==> lir.op0 >= 0
    ensures |EntryInsnBytes(e, lir)| == EntryInsnSize(e, lir)
  {
    if e.kind.Data? {
      DataBytesLength(e, lir);
    } else if e.kind.Nop? {
      NopBytesLength(e, lir);
    } else if e.kind.Nullary? {
      NullaryBytesLength(e, lir);
    } else if e.kind.Prefix2Nullary? {
      Prefix2NullaryBytesLength(e, lir);
    } else if e.kind.RegOpcode? {
      RegOpcodeBytesLength(e, lir);
    } else if e.kind.Reg? {
      RegBytesLength(e, lir);
    } else if e.kind.RegReg? {
      RegRegBytesLength(e, lir);
    } else {
      RegRegStoreBytesLength(e, lir);
    }
  }

  /** The size rule holds for the kinds with a memory operand. */
  lemma MemoryKindsBytesLength(e: X86EncodingMap, lir: Lir)
    requires RowWellFormed(e)
    requires e.kind.Mem? || e.kind.Array? || e.kind.MemReg? || e.kind.MemRegImm? || e.kind.ArrayReg? || e.kind.ThreadReg? || e.kind.RegMem? || e.kind.RegArray? || e.kind.RegThread?
    ensures |EntryInsnBytes(e, lir)| == EntryInsnSize(e, lir)
  {
    if e.kind.Mem? {
      MemBytesLength(e, lir);
    } else if e.kind.Array? {
      ArrayBytesLength(e, lir);
    } else if e.kind.MemReg? {
      MemRegBytesLength(e, lir);
    } else if e.kind.MemRegImm? {
      MemRegImmBytesLength(e, lir);
    } else if e.kind.ArrayReg? {
      ArrayRegBytesLength(e, lir);
    } else if e.kind.ThreadReg? {
      ThreadRegBytesLength(e, lir);
    } else if e.kind.RegMem? {
      RegMemBytesLength(e, lir);
    } else if e.kind.RegArray? {
      RegArrayBytesLength(e, lir);
    } else {
      RegThreadBytesLength(e, lir);
    }
  }

  /** The size rule holds for the kinds with an immediate. */
  lemma ImmediateKindsBytesLength(e: X86EncodingMap, lir: Lir)
    requires RowWellFormed(e)
    requires e.kind.RegImm? || e.kind.MemImm? || e.kind.ArrayImm? || e.kind.ThreadImm? || e.kind.RegRegImm? || e.kind.RegRegImmRev? || e.kind.RegMemImm? || e.kind.RegArrayImm? || e.kind.MovRegImm?
    ensures |EntryInsnBytes(e, lir)| == EntryInsnSize(e, lir)
  {
    if e.kind.RegImm? {
      RegImmBytesLength(e, lir);
    } else if e.kind.MemImm? {
      MemImmBytesLength(e, lir);
    } else if e.kind.ArrayImm? {
      ArrayImmBytesLength(e, lir);
    } else if e.kind.ThreadImm? {
      ThreadImmBytesLength(e, lir);
    } else if e.kind.RegRegImm? {
      RegRegImmBytesLength(e, lir);
    } else if e.kind.RegRegImmRev? {
      RegRegImmRevBytesLength(e, lir);
    } else if e.kind.RegMemImm? {
      RegMemImmBytesLength(e, lir);
    } else if e.kind.RegArrayImm? {
      RegArrayImmBytesLength(e, lir);
    } else {
      MovRegImmBytesLength(e, lir);
    }
  }

  /** The size rule holds for the shifts. */
  lemma ShiftKindsBytesLength(e: X86EncodingMap, lir: Lir)
    requires RowWellFormed(e)
    requires e.kind.ShiftRegImm? || e.kind.ShiftMemImm? || e.kind.ShiftArrayImm? || e.kind.ShiftRegCl? || e.kind.ShiftMemCl? || e.kind.ShiftArrayCl?
    ensures |EntryInsnBytes(e, lir)| == EntryInsnSize(e, lir)
  {
    if e.kind.ShiftRegImm? {
      ShiftRegImmBytesLength(e, lir);
    } else if e.kind.ShiftMemImm? {
      ShiftMemImmBytesLength(e, lir);
    } else if e.kind.ShiftArrayImm? {
      ShiftArrayImmBytesLength(e, lir);
    } else if e.kind.ShiftRegCl? {
      ShiftRegClBytesLength(e, lir);
    } else if e.kind.ShiftMemCl? {
      ShiftMemClBytesLength(e, lir);
    } else {
      ShiftArrayClBytesLength(e, lir);
    }
  }

  /** The size rule holds for the conditional forms, branches, calls, switch-table loads and the method-address macro. */
  lemma BranchKindsBytesLength(e: X86EncodingMap, lir: Lir)
    requires RowWellFormed(e)
    requires e.kind.RegCond? || e.kind.MemCond? || e.kind.ArrayCond? || e.kind.RegRegCond? || e.kind.RegMemCond? || e.kind.Jcc? || e.kind.Jmp? || e.kind.Call? || e.kind.PcRel? || e.kind.Macro?
    ensures |EntryInsnBytes(e, lir)| == EntryInsnSize(e, lir)
  {
    if e.kind.RegCond? {
      RegCondBytesLength(e, lir);
    } else if e.kind.MemCond? {
      MemCondBytesLength(e, lir);
    } else if e.kind.ArrayCond? {
      ArrayCondBytesLength(e, lir);
    } else if e.kind.RegRegCond? {
      RegRegCondBytesLength(e, lir);
    } else if e.kind.RegMemCond? {
      RegMemCondBytesLength(e, lir);
    } else if e.kind.Jcc? {
      JccBytesLength(e, lir);
    } else if e.kind.Jmp? {
      JmpBytesLength(e, lir);
    } else if e.kind.Call? {
      CallBytesLength(e, lir);
    } else if e.kind.PcRel? {
      PcRelBytesLength(e, lir);
    } else {
      MacroBytesLength(e, lir);
    }
  }

  // One lemma per kind keeps each proof to a single emitter and size rule.

  lemma DataBytesLength(e: X86EncodingMap, lir: Lir)
    requires RowWellFormed(e) && e.kind.Data?
    ensures |EntryInsnBytes(e, lir)| == EntryInsnSize(e, lir)
  {
  }

  lemma NopBytesLength(e: X86EncodingMap, lir: Lir)
    requires RowWellFormed(e) && e.kind.Nop?
    requires lir.op0 >= 0
    ensures |EntryInsnBytes(e, lir)| == EntryInsnSize(e, lir)
  {
  }

  lemma NullaryBytesLength(e: X86EncodingMap, lir: Lir)
    requires RowWellFormed(e) && e.kind.Nullary?
    ensures |EntryInsnBytes(e, lir)| == EntryInsnSize(e, lir)
  {
  }

  lemma Prefix2NullaryBytesLength(e: X86EncodingMap, lir: Lir)
    requires RowWellFormed(e) && e.kind.Prefix2Nullary?
    ensures |EntryInsnBytes(e, lir)| == EntryInsnSize(e, lir)
  {
  }

  lemma RegOpcodeBytesLength(e: X86EncodingMap, lir: Lir)
    requires RowWellFormed(e) && e.kind.RegOpcode?
    ensures |EntryInsnBytes(e, lir)| == EntryInsnSize(e, lir)
  {
  }

  lemma RegBytesLength(e: X86EncodingMap, lir: Lir)
    requires RowWellFormed(e) && e.kind.Reg?
    ensures |EntryInsnBytes(e, lir)| == EntryInsnSize(e, lir)
  {
  }

  lemma MemBytesLength(e: X86EncodingMap, lir: Lir)
    requires RowWellFormed(e) && e.kind.Mem?
    ensures |EntryInsnBytes(e, lir)| == EntryInsnSize(e, lir)
  {
  }

  lemma ArrayBytesLength(e: X86EncodingMap, lir: Lir)
    requires RowWellFormed(e) && e.kind.Array?
    ensures |EntryInsnBytes(e, lir)| == EntryInsnSize(e, lir)
  {
  }

  lemma MemRegBytesLength(e: X86EncodingMap, lir: Lir)
    requires RowWellFormed(e) && e.kind.MemReg?
    ensures |EntryInsnBytes(e, lir)| == EntryInsnSize(e, lir)
  {
  }

  lemma MemRegImmBytesLength(e: X86EncodingMap, lir: Lir)
    requires RowWellFormed(e) && e.kind.MemRegImm?
    ensures |EntryInsnBytes(e, lir)| == EntryInsnSize(e, lir)
  {
  }

  lemma ArrayRegBytesLength(e: X86EncodingMap, lir: Lir)
    requires RowWellFormed(e) && e.kind.ArrayReg?
    ensures |EntryInsnBytes(e, lir)| == EntryInsnSize(e, lir)
  {
  }

  lemma ThreadRegBytesLength(e: X86EncodingMap, lir: Lir)
    requires RowWellFormed(e) && e.kind.ThreadReg?
    ensures |EntryInsnBytes(e, lir)| == EntryInsnSize(e, lir)
  {
  }

  lemma RegRegBytesLength(e: X86EncodingMap, lir: Lir)
    requires RowWellFormed(e) && e.kind.RegReg?
    ensures |EntryInsnBytes(e, lir)| == EntryInsnSize(e, lir)
  {
  }

  lemma RegRegStoreBytesLength(e: X86EncodingMap, lir: Lir)
    requires RowWellFormed(e) && e.kind.RegRegStore?
    ensures |EntryInsnBytes(e, lir)| == EntryInsnSize(e, lir)
  {
  }

  lemma RegMemBytesLength(e: X86EncodingMap, lir: Lir)
    requires RowWellFormed(e) && e.kind.RegMem?
    ensures |EntryInsnBytes(e, lir)| == EntryInsnSize(e, lir)
  {
  }

  lemma RegArrayBytesLength(e: X86EncodingMap, lir: Lir)
    requires RowWellFormed(e) && e.kind.RegArray?
    ensures |EntryInsnBytes(e, lir)| == EntryInsnSize(e, lir)
  {
  }

  lemma RegThreadBytesLength(e: X86EncodingMap, lir: Lir)
    requires RowWellFormed(e) && e.kind.RegThread?
    ensures |EntryInsnBytes(e, lir)| == EntryInsnSize(e, lir)
  {
  }

  lemma RegImmBytesLength(e: X86EncodingMap, lir: Lir)
    requires RowWellFormed(e) && e.kind.RegImm?
    ensures |EntryInsnBytes(e, lir)| == EntryInsnSize(e, lir)
  {
  }

  lemma MemImmBytesLength(e: X86EncodingMap, lir: Lir)
    requires RowWellFormed(e) && e.kind.MemImm?
    ensures |EntryInsnBytes(e, lir)| == EntryInsnSize(e, lir)
  {
  }

  lemma ArrayImmBytesLength(e: X86EncodingMap, lir: Lir)
    requires RowWellFormed(e) && e.kind.ArrayImm?
    ensures |EntryInsnBytes(e, lir)| == EntryInsnSize(e, lir)
  {
  }

  lemma ThreadImmBytesLength(e: X86EncodingMap, lir: Lir)
    requires RowWellFormed(e) && e.kind.ThreadImm?
    ensures |EntryInsnBytes(e, lir)| == EntryInsnSize(e, lir)
  {
  }

  lemma RegRegImmBytesLength(e: X86EncodingMap, lir: Lir)
    requires RowWellFormed(e) && e.kind.RegRegImm?
    ensures |EntryInsnBytes(e, lir)| == EntryInsnSize(e, lir)
  {
  }

  lemma RegRegImmRevBytesLength(e: X86EncodingMap, lir: Lir)
    requires RowWellFormed(e) && e.kind.RegRegImmRev?
    ensures |EntryInsnBytes(e, lir)| == EntryInsnSize(e, lir)
  {
  }

  lemma RegMemImmBytesLength(e: X86EncodingMap, lir: Lir)
    requires RowWellFormed(e) && e.kind.RegMemImm?
    ensures |EntryInsnBytes(e, lir)| == EntryInsnSize(e, lir)
  {
  }

  lemma RegArrayImmBytesLength(e: X86EncodingMap, lir: Lir)
    requires RowWellFormed(e) && e.kind.RegArrayImm?
    ensures |EntryInsnBytes(e, lir)| == EntryInsnSize(e, lir)
  {
  }

  lemma MovRegImmBytesLength(e: X86EncodingMap, lir: Lir)
    requires RowWellFormed(e) && e.kind.MovRegImm?
    ensures |EntryInsnBytes(e, lir)| == EntryInsnSize(e, lir)
  {
  }

  lemma ShiftRegImmBytesLength(e: X86EncodingMap, lir: Lir)
    requires RowWellFormed(e) && e.kind.ShiftRegImm?
    ensures |EntryInsnBytes(e, lir)| == EntryInsnSize(e, lir)
  {
  }

  lemma ShiftMemImmBytesLength(e: X86EncodingMap, lir: Lir)
    requires RowWellFormed(e) && e.kind.ShiftMemImm?
    ensures |EntryInsnBytes(e, lir)| == EntryInsnSize(e, lir)
  {
  }

  lemma ShiftArrayImmBytesLength(e: X86EncodingMap, lir: Lir)
    requires RowWellFormed(e) && e.kind.ShiftArrayImm?
    ensures |EntryInsnBytes(e, lir)| == EntryInsnSize(e, lir)
  {
  }

  lemma ShiftRegClBytesLength(e: X86EncodingMap, lir: Lir)
    requires RowWellFormed(e) && e.kind.ShiftRegCl?
    ensures |EntryInsnBytes(e, lir)| == EntryInsnSize(e, lir)
  {
  }

  lemma ShiftMemClBytesLength(e: X86EncodingMap, lir: Lir)
    requires RowWellFormed(e) && e.kind.ShiftMemCl?
    ensures |EntryInsnBytes(e, lir)| == EntryInsnSize(e, lir)
  {
  }

  lemma ShiftArrayClBytesLength(e: X86EncodingMap, lir: Lir)
    requires RowWellFormed(e) && e.kind.ShiftArrayCl?
    ensures |EntryInsnBytes(e, lir)| == EntryInsnSize(e, lir)
  {
  }

  lemma RegCondBytesLength(e: X86EncodingMap, lir: Lir)
    requires RowWellFormed(e) && e.kind.RegCond?
    ensures |EntryInsnBytes(e, lir)| == EntryInsnSize(e, lir)
  {
  }

  lemma MemCondBytesLength(e: X86EncodingMap, lir: Lir)
    requires RowWellFormed(e) && e.kind.MemCond?
    ensures |EntryInsnBytes(e, lir)| == EntryInsnSize(e, lir)
  {
  }

  lemma ArrayCondBytesLength(e: X86EncodingMap, lir: Lir)
    requires RowWellFormed(e) && e.kind.ArrayCond?
    ensures |EntryInsnBytes(e, lir)| == EntryInsnSize(e, lir)
  {
  }

  lemma RegRegCondBytesLength(e: X86EncodingMap, lir: Lir)
    requires RowWellFormed(e) && e.kind.RegRegCond?
    ensures |EntryInsnBytes(e, lir)| == EntryInsnSize(e, lir)
  {
  }

  lemma RegMemCondBytesLength(e: X86EncodingMap, lir: Lir)
    requires RowWellFormed(e) && e.kind.RegMemCond?
    ensures |EntryInsnBytes(e, lir)| == EntryInsnSize(e, lir)
  {
  }

  lemma JccBytesLength(e: X86EncodingMap, lir: Lir)
    requires RowWellFormed(e) && e.kind.Jcc?
    ensures |EntryInsnBytes(e, lir)| == EntryInsnSize(e, lir)
  {
  }

  lemma JmpBytesLength(e: X86EncodingMap, lir: Lir)
    requires RowWellFormed(e)
    requires e.kind.Jmp?
    ensures |EntryInsnBytes(e, lir)| == EntryInsnSize(e, lir)
  {
    if e.opcode == X86JmpT {
      JmpThreadBytesLength(e, lir);
    } else {
      assert EntryInsnBytes(e, lir) == JmpBytes(e, lir.op0);
    }
  }

  lemma JmpThreadBytesLength(e: X86EncodingMap, lir: Lir)
    requires RowWellFormed(e)
    requires e.kind.Jmp? && e.opcode == X86JmpT
    ensures |EntryInsnBytes(e, lir)| == EntryInsnSize(e, lir)
  {
    var bytes, size := EntryInsnBytes(e, lir), EntryInsnSize(e, lir);
    assert size == ComputeSize(e, 0, kDisp32, false);
    assert bytes == CallThreadBytes(e, lir.op0);
  }

  lemma CallBytesLength(e: X86EncodingMap, lir: Lir)
    requires RowWellFormed(e)
    requires e.kind.Call?
    ensures |EntryInsnBytes(e, lir)| == EntryInsnSize(e, lir)
  {
    if e.opcode == X86CallI {
      CallImmediateBytesLength(e, lir);
    } else if e.opcode == X86CallM {
      CallMemBytesLength(e, lir);
    } else if e.opcode == X86CallT {
      CallThreadBytesLength(e, lir);
    } else {
      CallOtherBytesLength(e, lir);
    }
  }

  lemma CallImmediateBytesLength(e: X86EncodingMap, lir: Lir)
    requires RowWellFormed(e)
    requires e.kind.Call? && e.opcode == X86CallI
    ensures |EntryInsnBytes(e, lir)| == EntryInsnSize(e, lir)
  {
  }

  lemma CallMemBytesLength(e: X86EncodingMap, lir: Lir)
    requires RowWellFormed(e)
    requires e.kind.Call? && e.opcode == X86CallM
    ensures |EntryInsnBytes(e, lir)| == EntryInsnSize(e, lir)
  {
  }

  lemma CallThreadBytesLength(e: X86EncodingMap, lir: Lir)
    requires RowWellFormed(e)
    requires e.kind.Call? && e.opcode == X86CallT
    ensures |EntryInsnBytes(e, lir)| == EntryInsnSize(e, lir)
  {
  }

  lemma CallOtherBytesLength(e: X86EncodingMap, lir: Lir)
    requires RowWellFormed(e)
    requires e.kind.Call? && e.opcode != X86CallI && e.opcode != X86CallM && e.opcode != X86CallT
    ensures |EntryInsnBytes(e, lir)| == EntryInsnSize(e, lir)
  {
  }

  lemma PcRelBytesLength(e: X86EncodingMap, lir: Lir)
    requires RowWellFormed(e)
    requires e.kind.PcRel?
    ensures |EntryInsnBytes(e, lir)| == EntryInsnSize(e, lir)
  {
    if e.opcode == X86PcRelLoadRA {
      PcRelLoadBytesLength(e, lir);
    } else {
      PcRelAdrBytesLength(e, lir);
    }
  }

  lemma PcRelLoadBytesLength(e: X86EncodingMap, lir: Lir)
    requires RowWellFormed(e)
    requires e.kind.PcRel? && e.opcode == X86PcRelLoadRA
    ensures |EntryInsnBytes(e, lir)| == EntryInsnSize(e, lir)
  {
  }

  lemma PcRelAdrBytesLength(e: X86EncodingMap, lir: Lir)
    requires RowWellFormed(e)
    requires e.kind.PcRel? && e.opcode != X86PcRelLoadRA
    ensures |EntryInsnBytes(e, lir)| == EntryInsnSize(e, lir)
  {
  }

  lemma MacroBytesLength(e: X86EncodingMap, lir: Lir)
    requires e.kind == Macro
    ensures |EntryInsnBytes(e, lir)| == EntryInsnSize(e, lir)
  {
    var sub := kSub32RIRow;
    assert sub.skeleton == Skeleton(0, 0, 0x81, 0, 0, 5, 0x2D, 4);
    assert |RegImmBytes(sub, RegStorage.RegNum(lir.op0), lir.offset + 5)| ==
           ComputeSize(sub, 0, 0, false) - (if RegStorage.RegNum(lir.op0) == kAxRegNum then 1 else 0);
  }

  // ---------------------------------------------------------------------
  // What the bytes mean.

  /**
   * A memory operand: the ModR/M byte carries the mod the displacement
   * needs, an SP base is followed by the SIB byte 0x24, and a BP base
   * always gets an explicit displacement.
   */
  lemma MemOperandLayout(regOrOpcode: int, base: int, disp: int)
    ensures var b := ModrmDispBytes(regOrOpcode, base, disp);
            b[0] == ModrmByte(ModrmForDisp(base, disp), RegBits(regOrOpcode), RegBits(base)) &&
            (RegStorage.RegNum(base) == kSpRegNum ==> |b| >= 2 && b[1] == kSpSib) &&
            (RegStorage.RegNum(base) == kBpRegNum ==> |b| >= 2 && ModrmForDisp(base, disp) != 0) &&
            |b| == 1 + (if RegStorage.RegNum(base) == kSpRegNum then 1 else 0) + |DispBytes(base, disp)|
  {
  }

  /** The SIB byte 0x24 names SP as base and no index (index field 4), with scale 1. */
  lemma SpSibFields()
    ensures kSpSib == ModrmByte(0, kSpRegNum as bv8, kSpRegNum as bv8)
  {
  }

  /** A 32-bit displacement is read back from the bytes emitted for it; an omitted one was zero. */
  lemma {:induction false} DispRoundTrip(base: int, disp: int)
    requires -0x8000_0000 <= disp < 0x8000_0000
    ensures var d := DispBytes(base, disp);
            if |d| == 0 then disp == 0 else Signed(ReadLittleEndian(d), |d|) == disp
  {
    ImmediateRoundTrips(disp);
    var d := DispBytes(base, disp);
    if |d| == 1 {
      assert d == LittleEndian(disp, 1);
    } else if |d| == 4 {
      assert d == LittleEndian(disp, 4);
    }
  }

  /** An immediate in the range its width allows is read back from the bytes emitted for it. */
  lemma {:induction false} ImmRoundTrip(e: X86EncodingMap, imm: int)
    requires ImmediateWidth(e.skeleton)
    requires e.skeleton.immediateBytes == 1 ==> IsSimm8(imm)
    requires e.skeleton.immediateBytes == 2 ==> IsSimm16(imm)
    requires -0x8000_0000 <= imm < 0x8000_0000
    ensures Signed(ReadLittleEndian(ImmBytes(e, imm)), e.skeleton.immediateBytes) == imm
  {
    ImmediateRoundTrips(imm);
  }

  /** A condition code below 16 sits in the low nibble of 70|cc and 80|cc. */
  lemma ConditionNibble(cc: bv8)
    requires cc < 16
    ensures (0x70 | cc) & 0xF0 == 0x70 && (0x70 | cc) & 0x0F == cc
    ensures (0x80 | cc) & 0xF0 == 0x80 && (0x80 | cc) & 0x0F == cc
  {
  }

  /** A short conditional branch is 70|cc followed by the 8-bit displacement, which is read back. */
  lemma {:induction false} ShortJccRoundTrip(e: X86EncodingMap, rel: int, cc: int)
    requires e.opcode == X86Jcc8
    requires IsSimm8(rel) && Lo8(cc) < 16
    ensures var b := JccBytes(e, rel, cc);
            |b| == 2 && b[0] & 0xF0 == 0x70 && b[0] & 0x0F == Lo8(cc) &&
            Signed(ReadLittleEndian(b[1..]), 1) == rel
  {
    var b := JccBytes(e, rel, cc);
    ConditionNibble(Lo8(cc));
    assert b[1..] == LittleEndian(rel, 1);
    ImmediateRoundTrips(rel);
  }

  // ---------------------------------------------------------------------
  // Where the source's size rule and its emitter disagree.

  /** kData as written: one byte is pushed (the operand truncated to a byte). */
  function DataBytesAsWritten(value: int): (r: seq<bv8>)
    ensures |r| == 1 && r[0] == Lo8(value)
  {
    [Lo8(value)]
  }

  /** 32-bit data is predicted to take four bytes, but one is pushed as written. */
  lemma DataSizeMismatchAsWritten(lir: Lir)
    requires lir.opcode == Insn(X8632BitData)
    ensures GetInsnSize(lir) == 4 && |DataBytesAsWritten(lir.op0)| == 1
  {
  }

  /** The corrected kData appends the four bytes of the value, which read back as the value. */
  lemma DataRoundTrip(lir: Lir)
    requires lir.opcode == Insn(X8632BitData)
    requires -0x8000_0000 <= lir.op0 < 0x8000_0000
    ensures |InsnBytes(lir)| == GetInsnSize(lir) == 4
    ensures Signed(ReadLittleEndian(InsnBytes(lir)), 4) == lir.op0
  {
    ImmediateRoundTrips(lir.op0);
  }

  /** kMovRegImm as written: its size rule is one opcode byte plus the row's immediate. */
  function MovRegImmSizeAsWritten(e: X86EncodingMap): (r: nat)
    ensures r == 1 + e.skeleton.immediateBytes
  {
    1 + e.skeleton.immediateBytes
  }

  /** kMovRegImm as written: B8+r and four immediate bytes whatever the row says. */
  function MovRegImmBytesAsWritten(reg: int, imm: int): (r: seq<bv8>)
    ensures |r| == 5 && r[0] == 0xB8 + RegBits(reg)
  {
    [0xB8 + RegBits(reg)] + LittleEndian(imm, 4)
  }

  /**
   * The 8- and 16-bit immediate moves are predicted to take 2 and 3 bytes
   * but five are emitted as written, and those five are the 32-bit move.
   */
  lemma MovRegImmMismatchAsWritten(reg: int, imm: int)
    ensures MovRegImmSizeAsWritten(EncodingMap(X86Mov8RI)) == 2
    ensures MovRegImmSizeAsWritten(EncodingMap(X86Mov16RI)) == 3
    ensures |MovRegImmBytesAsWritten(reg, imm)| == 5
    ensures MovRegImmBytesAsWritten(reg, imm)[0] != EncodingMap(X86Mov8RI).skeleton.opcode + RegBits(reg)
  {
  }

  /** The corrected 8-bit immediate move is B0+r and one immediate byte, two bytes in all. */
  lemma Mov8RIEncoding(lir: Lir)
    requires lir.opcode == Insn(X86Mov8RI) && IsSimm8(lir.op1)
    ensures var b := InsnBytes(lir);
            |b| == GetInsnSize(lir) == 2 && b[0] == 0xB0 + RegBits(lir.op0) &&
            Signed(ReadLittleEndian(b[1..]), 1) == lir.op1
  {
    var b := InsnBytes(lir);
    assert b[1..] == LittleEndian(lir.op1, 1);
    ImmediateRoundTrips(lir.op1);
  }

  /**
   * kMovRegImm's size rule as written counts no prefix: the 16-bit move,
   * whose row carries the operand-size prefix 0x66, is predicted one byte
   * shorter than its prefix, B8+r and two immediate bytes.
   */
  lemma MovRegImmPrefixAsWritten(reg: int, imm: int)
    ensures MovRegImmSizeAsWritten(EncodingMap(X86Mov16RI)) == 3
    ensures |MovRegImmBytes(EncodingMap(X86Mov16RI), reg, imm)| == MovRegImmSizeAsWritten(EncodingMap(X86Mov16RI)) + 1
  {
  }

  /** The corrected 16-bit immediate move is 66, B8+r and two immediate bytes, four bytes as predicted. */
  lemma Mov16RIEncoding(lir: Lir)
    requires lir.opcode == Insn(X86Mov16RI) && IsSimm16(lir.op1)
    ensures var b := InsnBytes(lir);
            |b| == GetInsnSize(lir) == 4 && b[0] == 0x66 && b[1] == 0xB8 + RegBits(lir.op0) &&
            Signed(ReadLittleEndian(b[2..]), 2) == lir.op1
  {
    var b := InsnBytes(lir);
    assert b[2..] == LittleEndian(lir.op1, 2);
    ImmediateRoundTrips(lir.op1);
  }

  /** The 32-bit immediate move is B8+r and four immediate bytes, five bytes as predicted. */
  lemma Mov32RIEncoding(lir: Lir)
    requires lir.opcode == Insn(X86Mov32RI) && -0x8000_0000 <= lir.op1 < 0x8000_0000
    ensures var b := InsnBytes(lir);
            |b| == GetInsnSize(lir) == 5 && b[0] == 0xB8 + RegBits(lir.op0) &&
            Signed(ReadLittleEndian(b[1..]), 4) == lir.op1
  {
    var b := InsnBytes(lir);
    assert b[1..] == LittleEndian(lir.op1, 4);
    ImmediateRoundTrips(lir.op1);
  }

  /**
   * The shift-by-CL rows as declared predict one immediate byte more than
   * their emitters append, and so fail the well-formedness their kind needs.
   */
  lemma ShiftClMismatchAsWritten(op: X86OpCode, lir: Lir)
    requires op == X86Sal8RC || op == X86Sal8MC || op == X86Sal16RC || op == X86Sal16MC
    ensures !RowWellFormed(ShiftClRowAsWritten(op))
    ensures var e := ShiftClRowAsWritten(op);
            e.kind == ShiftRegCl ==> EntryInsnSize(e, lir) == |ShiftRegClBytes(e, lir.op0)| + 1
    ensures var e := ShiftClRowAsWritten(op);
            e.kind == ShiftMemCl ==> EntryInsnSize(e, lir) == |ShiftMemClBytes(e, lir.op0, lir.op1)| + 1
  {
    if op == X86Sal8RC || op == X86Sal16RC {
      ShiftClRegRows(op, lir);
    } else {
      ShiftClMemRows(op, lir);
    }
    ShiftClSizeMismatch(ShiftClRowAsWritten(op), lir);
  }

  /**
   * The corrected 8- and 16-bit shift-by-CL register rows declare no
   * immediate, are well formed, and predict exactly what EmitShiftRegCl appends.
   */
  lemma ShiftClRegRows(op: X86OpCode, lir: Lir)
    requires op == X86Sal8RC || op == X86Sal16RC
    ensures var e := EncodingMap(op);
            e.kind == ShiftRegCl && e.skeleton.opcode != 0x0F && e.skeleton.immediateBytes == 0 && RowWellFormed(e)
    ensures EntryInsnSize(EncodingMap(op), lir) == |ShiftRegClBytes(EncodingMap(op), lir.op0)|
  {
    var e := EncodingMap(op);
    assert e.kind == ShiftRegCl && e.skeleton.opcode != 0x0F && e.skeleton.extraOpcode1 == 0 && e.skeleton.immediateBytes == 0;
    ShiftRegClBytesLength(e, lir);
  }

  /**
   * The corrected 8- and 16-bit shift-by-CL memory rows declare no
   * immediate, are well formed, and predict exactly what EmitShiftMemCl appends.
   */
  lemma ShiftClMemRows(op: X86OpCode, lir: Lir)
    requires op == X86Sal8MC || op == X86Sal16MC
    ensures var e := EncodingMap(op);
            e.kind == ShiftMemCl && e.skeleton.opcode != 0x0F && e.skeleton.immediateBytes == 0 && RowWellFormed(e)
    ensures EntryInsnSize(EncodingMap(op), lir) == |ShiftMemClBytes(EncodingMap(op), lir.op0, lir.op1)|
  {
    var e := EncodingMap(op);
    assert e.kind == ShiftMemCl && e.skeleton.opcode != 0x0F && e.skeleton.extraOpcode1 == 0 && e.skeleton.immediateBytes == 0;
    ShiftMemClBytesLength(e, lir);
  }

  /**
   * A shift-by-CL row that declares a one-byte immediate is not well formed,
   * and its predicted size exceeds the bytes its emitter appends by one.
   */
  lemma ShiftClSizeMismatch(e: X86EncodingMap, lir: Lir)
    requires e.kind == ShiftRegCl || e.kind == ShiftMemCl
    requires e.skeleton.opcode != 0x0F && e.skeleton.immediateBytes == 1
    ensures !RowWellFormed(e)
    ensures e.kind == ShiftRegCl ==> EntryInsnSize(e, lir) == |ShiftRegClBytes(e, lir.op0)| + 1
    ensures e.kind == ShiftMemCl ==> EntryInsnSize(e, lir) == |ShiftMemClBytes(e, lir.op0, lir.op1)| + 1
  {
    assert |OpcodeBytes(e)| == 1;
    if e.kind == ShiftRegCl {
      assert EntryInsnSize(e, lir) == ComputeSize(e, 0, 0, false);
    } else {
      assert EntryInsnSize(e, lir) == ComputeSize(e, lir.op0, lir.op1, false);
    }
  }

  /** kMem as written: the prefix and only the first opcode byte, then the operand. */
  function OpMemBytesAsWritten(e: X86EncodingMap, base: int, disp: int): (r: seq<bv8>)
    ensures |r| == |PrefixBytes(e)| + 1 + |ModrmDispBytes(e.skeleton.modrmOpcode as int, base, disp)|
  {
    PrefixBytes(e) + [e.skeleton.opcode] + ModrmDispBytes(e.skeleton.modrmOpcode as int, base, disp)
  }

  /**
   * LOCK CMPXCHG8B m64 is a kMem row with the two-byte opcode 0F C7: as
   * written its C7 byte is dropped, one byte short of the predicted size.
   */
  lemma LockCmpxchg8bMismatchAsWritten(lir: Lir)
    requires lir.opcode == Insn(X86LockCmpxchg8bM)
    ensures |OpMemBytesAsWritten(EncodingMap(X86LockCmpxchg8bM), lir.op0, lir.op1)| + 1 == GetInsnSize(lir)
  {
  }

  /** The corrected kMem emitter writes F0 0F C7 and then the memory operand. */
  lemma LockCmpxchg8bEncoding(lir: Lir)
    requires lir.opcode == Insn(X86LockCmpxchg8bM)
    ensures var b := InsnBytes(lir);
            |b| >= 3 && b[..3] == [0xF0, 0x0F, 0xC7]
  {
    var e := EncodingMap(X86LockCmpxchg8bM);
    assert e.kind == Mem && e.skeleton.prefix1 == 0xF0 && e.skeleton.prefix2 == 0;
    assert e.skeleton.opcode == 0x0F && e.skeleton.extraOpcode1 == 0xC7;
    assert InsnBytes(lir) == PrefixAndOpcodeBytes(e) + ModrmDispBytes(1, lir.op0, lir.op1);
  }
}
