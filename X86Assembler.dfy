// The x86 assembler as the compiler runs it: a code buffer that the
// emitters append to, the assembly pass over an array of LIR instructions,
// the offset-assignment walk, and the retry loop that repeats both until a
// pass needs no fixup. Each method is proved against the functions of
// X86Encoding (the bytes of each emitter) and X86Fixup (a pass, the offset
// walk and the retry loop).
module X86Assembler {
  import opened Bytes
  import RegStorage
  import opened X86Encoding
  import opened X86Fixup

  /** RoundUp(x, 4): the least multiple of four that is at least x. */
  function RoundUp4(x: int): (r: int)
    ensures r % 4 == 0 && x <= r < x + 4
  {
    ((x + 3) / 4) * 4
  }

  class X86Mir2Lir {
    /** The machine code emitted so far. */
    var codeBuffer: seq<bv8>
    /** Where the literal pool starts: the end of the code, rounded up to a word. */
    var dataOffset: int
    /** Whether the method's address was set up, and whether anything used it. */
    var storeMethodAddr: bool
    var storeMethodAddrUsed: bool
    /** The indices of the two instructions that set up the method's address. */
    var setupMethodAddress0: nat
    var setupMethodAddress1: nat

    constructor ()
      ensures codeBuffer == [] && dataOffset == 0
      ensures !storeMethodAddr && !storeMethodAddrUsed
    {
      codeBuffer := [];
      dataOffset := 0;
      storeMethodAddr := false;
      storeMethodAddrUsed := false;
      setupMethodAddress0 := 0;
      setupMethodAddress1 := 0;
    }

    // -------------------------------------------------------------------
    // Emitters. Each appends the bytes its X86Encoding function gives.

    /** Four bytes of a 32-bit quantity, least significant first. */
    method Emit32(x: int)
      modifies this`codeBuffer
      ensures codeBuffer == old(codeBuffer) + LittleEndian(x, 4)
    {
      LittleEndian4(x);
      codeBuffer := codeBuffer + [Lo8(x)];
      codeBuffer := codeBuffer + [Lo8(x / 0x100)];
      codeBuffer := codeBuffer + [Lo8(x / 0x1_0000)];
      codeBuffer := codeBuffer + [Lo8(x / 0x100_0000)];
    }

    method EmitPrefix(e: X86EncodingMap)
      modifies this`codeBuffer
      ensures codeBuffer == old(codeBuffer) + PrefixBytes(e)
    {
      if e.skeleton.prefix1 != 0 {
        codeBuffer := codeBuffer + [e.skeleton.prefix1];
        if e.skeleton.prefix2 != 0 {
          codeBuffer := codeBuffer + [e.skeleton.prefix2];
        }
      }
    }

    method EmitOpcode(e: X86EncodingMap)
      modifies this`codeBuffer
      ensures codeBuffer == old(codeBuffer) + OpcodeBytes(e)
    {
      codeBuffer := codeBuffer + [e.skeleton.opcode];
      if e.skeleton.opcode == 0x0F {
        codeBuffer := codeBuffer + [e.skeleton.extraOpcode1];
        if e.skeleton.extraOpcode1 == 0x38 || e.skeleton.extraOpcode1 == 0x3A {
          codeBuffer := codeBuffer + [e.skeleton.extraOpcode2];
        }
      }
    }

    method EmitPrefixAndOpcode(e: X86EncodingMap)
      modifies this`codeBuffer
      ensures codeBuffer == old(codeBuffer) + PrefixAndOpcodeBytes(e)
    {
      ghost var start := codeBuffer;
      EmitPrefix(e);
      EmitOpcode(e);
      Appended2(start, PrefixBytes(e), OpcodeBytes(e));
    }

    method EmitDisp(base: int, disp: int)
      modifies this`codeBuffer
      ensures codeBuffer == old(codeBuffer) + DispBytes(base, disp)
    {
      if disp == 0 && RegStorage.RegNum(base) != kBpRegNum {
        return;
      } else if IsSimm8(disp) {
        codeBuffer := codeBuffer + [Lo8(disp)];
      } else {
        Emit32(disp);
      }
    }

    method EmitModrmDisp(regOrOpcode: int, base: int, disp: int)
      modifies this`codeBuffer
      ensures codeBuffer == old(codeBuffer) + ModrmDispBytes(regOrOpcode, base, disp)
    {
      ghost var start := codeBuffer;
      codeBuffer := codeBuffer + [ModrmByte(ModrmForDisp(base, disp), RegBits(regOrOpcode), RegBits(base))];
      if RegStorage.RegNum(base) == kSpRegNum {
        codeBuffer := codeBuffer + [kSpSib];
      }
      EmitDisp(base, disp);
      Appended3(start, [ModrmByte(ModrmForDisp(base, disp), RegBits(regOrOpcode), RegBits(base))],
                if RegStorage.RegNum(base) == kSpRegNum then [kSpSib] else [], DispBytes(base, disp));
    }

    method EmitModrmSibDisp(regOrOpcode: int, base: int, index: int, scale: int, disp: int)
      modifies this`codeBuffer
      ensures codeBuffer == old(codeBuffer) + ModrmSibDispBytes(regOrOpcode, base, index, scale, disp)
    {
      ghost var start := codeBuffer;
      codeBuffer := codeBuffer + [ModrmByte(ModrmForDisp(base, disp), RegBits(regOrOpcode), kSpRegNum as bv8),
                                  SibByte(scale, index, base)];
      EmitDisp(base, disp);
      Appended2(start, [ModrmByte(ModrmForDisp(base, disp), RegBits(regOrOpcode), kSpRegNum as bv8),
                        SibByte(scale, index, base)], DispBytes(base, disp));
    }

    method EmitImm(e: X86EncodingMap, imm: int)
      requires ImmediateWidth(e.skeleton)
      modifies this`codeBuffer
      ensures codeBuffer == old(codeBuffer) + ImmBytes(e, imm)
    {
      if e.skeleton.immediateBytes == 1 {
        codeBuffer := codeBuffer + [Lo8(imm)];
      } else if e.skeleton.immediateBytes == 2 {
        LittleEndian2(imm);
        codeBuffer := codeBuffer + [Lo8(imm)];
        codeBuffer := codeBuffer + [Lo8(imm / 0x100)];
      } else {
        Emit32(imm);
      }
    }

    /** Adds v to the last byte of the buffer (`code_buffer_.back() += v`). */
    method AddToLastByte(v: bv8)
      requires |codeBuffer| > 0
      modifies this`codeBuffer
      ensures codeBuffer == AddToLast(old(codeBuffer), v)
    {
      codeBuffer := codeBuffer[|codeBuffer| - 1 := codeBuffer[|codeBuffer| - 1] + v];
    }

    method EmitOpRegOpcode(e: X86EncodingMap, reg: int)
      modifies this`codeBuffer
      ensures codeBuffer == old(codeBuffer) + OpRegOpcodeBytes(e, reg)
    {
      ghost var start := codeBuffer;
      EmitPrefixAndOpcode(e);
      AddToLastByte(RegBits(reg));
      AppendedToLast(start, PrefixAndOpcodeBytes(e), RegBits(reg));
    }

    method EmitOpReg(e: X86EncodingMap, reg: int)
      modifies this`codeBuffer
      ensures codeBuffer == old(codeBuffer) + OpRegBytes(e, reg)
    {
      ghost var start := codeBuffer;
      EmitPrefixAndOpcode(e);
      codeBuffer := codeBuffer + [ModrmByte(3, e.skeleton.modrmOpcode, RegBits(reg))];
      Appended2(start, PrefixAndOpcodeBytes(e), [ModrmByte(3, e.skeleton.modrmOpcode, RegBits(reg))]);
    }

    method EmitOpMem(e: X86EncodingMap, base: int, disp: int)
      modifies this`codeBuffer
      ensures codeBuffer == old(codeBuffer) + OpMemBytes(e, base, disp)
    {
      ghost var start := codeBuffer;
      EmitPrefixAndOpcode(e);
      EmitModrmDisp(e.skeleton.modrmOpcode as int, base, disp);
      Appended2(start, PrefixAndOpcodeBytes(e), ModrmDispBytes(e.skeleton.modrmOpcode as int, base, disp));
    }

    method EmitOpArray(e: X86EncodingMap, base: int, index: int, scale: int, disp: int)
      modifies this`codeBuffer
      ensures codeBuffer == old(codeBuffer) + OpArrayBytes(e, base, index, scale, disp)
    {
      ghost var start := codeBuffer;
      EmitPrefixAndOpcode(e);
      EmitModrmSibDisp(e.skeleton.modrmOpcode as int, base, index, scale, disp);
      Appended2(start, PrefixAndOpcodeBytes(e), ModrmSibDispBytes(e.skeleton.modrmOpcode as int, base, index, scale, disp));
    }

    method EmitMemReg(e: X86EncodingMap, base: int, disp: int, reg: int)
      modifies this`codeBuffer
      ensures codeBuffer == old(codeBuffer) + MemRegBytes(e, base, disp, reg)
    {
      ghost var start := codeBuffer;
      EmitPrefixAndOpcode(e);
      EmitModrmDisp(reg, base, disp);
      Appended2(start, PrefixAndOpcodeBytes(e), ModrmDispBytes(reg, base, disp));
    }

    /** The opcode flips the operands: the same bytes as EmitMemReg. */
    method EmitRegMem(e: X86EncodingMap, reg: int, base: int, disp: int)
      modifies this`codeBuffer
      ensures codeBuffer == old(codeBuffer) + MemRegBytes(e, base, disp, reg)
    {
      EmitMemReg(e, base, disp, reg);
    }

    method EmitRegArray(e: X86EncodingMap, reg: int, base: int, index: int, scale: int, disp: int)
      modifies this`codeBuffer
      ensures codeBuffer == old(codeBuffer) + RegArrayBytes(e, reg, base, index, scale, disp)
    {
      ghost var start := codeBuffer;
      EmitPrefixAndOpcode(e);
      EmitModrmSibDisp(reg, base, index, scale, disp);
      Appended2(start, PrefixAndOpcodeBytes(e), ModrmSibDispBytes(reg, base, index, scale, disp));
    }

    method EmitArrayReg(e: X86EncodingMap, base: int, index: int, scale: int, disp: int, reg: int)
      modifies this`codeBuffer
      ensures codeBuffer == old(codeBuffer) + RegArrayBytes(e, reg, base, index, scale, disp)
    {
      EmitRegArray(e, reg, base, index, scale, disp);
    }

    method EmitArrayImm(e: X86EncodingMap, base: int, index: int, scale: int, disp: int, imm: int)
      requires ImmediateWidth(e.skeleton)
      modifies this`codeBuffer
      ensures codeBuffer == old(codeBuffer) + ArrayImmBytes(e, base, index, scale, disp, imm)
    {
      ghost var start := codeBuffer;
      EmitPrefixAndOpcode(e);
      EmitModrmSibDisp(e.skeleton.modrmOpcode as int, base, index, scale, disp);
      EmitImm(e, imm);
      Appended3(start, PrefixAndOpcodeBytes(e),
                ModrmSibDispBytes(e.skeleton.modrmOpcode as int, base, index, scale, disp), ImmBytes(e, imm));
    }

    method EmitRegThread(e: X86EncodingMap, reg: int, disp: int)
      modifies this`codeBuffer
      ensures codeBuffer == old(codeBuffer) + RegThreadBytes(e, reg, disp)
    {
      ghost var start := codeBuffer;
      EmitPrefixAndOpcode(e);
      codeBuffer := codeBuffer + [ModrmByte(0, RegBits(reg), kBpRegNum as bv8)];
      Emit32(disp);
      Appended3(start, PrefixAndOpcodeBytes(e), [ModrmByte(0, RegBits(reg), kBpRegNum as bv8)], LittleEndian(disp, 4));
    }

    method EmitRegReg(e: X86EncodingMap, reg1: int, reg2: int)
      modifies this`codeBuffer
      ensures codeBuffer == old(codeBuffer) + RegRegBytes(e, reg1, reg2)
    {
      ghost var start := codeBuffer;
      EmitPrefixAndOpcode(e);
      codeBuffer := codeBuffer + [ModrmByte(3, RegBits(reg1), RegBits(reg2))];
      Appended2(start, PrefixAndOpcodeBytes(e), [ModrmByte(3, RegBits(reg1), RegBits(reg2))]);
    }

    method EmitRegRegImm(e: X86EncodingMap, reg1: int, reg2: int, imm: int)
      requires ImmediateWidth(e.skeleton)
      modifies this`codeBuffer
      ensures codeBuffer == old(codeBuffer) + RegRegImmBytes(e, reg1, reg2, imm)
    {
      ghost var start := codeBuffer;
      EmitPrefixAndOpcode(e);
      codeBuffer := codeBuffer + [ModrmByte(3, RegBits(reg1), RegBits(reg2))];
      EmitImm(e, imm);
      Appended3(start, PrefixAndOpcodeBytes(e), [ModrmByte(3, RegBits(reg1), RegBits(reg2))], ImmBytes(e, imm));
    }

    method EmitRegRegImmRev(e: X86EncodingMap, reg1: int, reg2: int, imm: int)
      requires ImmediateWidth(e.skeleton)
      modifies this`codeBuffer
      ensures codeBuffer == old(codeBuffer) + RegRegImmBytes(e, reg2, reg1, imm)
    {
      EmitRegRegImm(e, reg2, reg1, imm);
    }

    method EmitRegMemImm(e: X86EncodingMap, reg: int, base: int, disp: int, imm: int)
      requires ImmediateWidth(e.skeleton)
      modifies this`codeBuffer
      ensures codeBuffer == old(codeBuffer) + RegMemImmBytes(e, reg, base, disp, imm)
    {
      ghost var start := codeBuffer;
      EmitPrefixAndOpcode(e);
      EmitModrmDisp(reg, base, disp);
      EmitImm(e, imm);
      Appended3(start, PrefixAndOpcodeBytes(e), ModrmDispBytes(reg, base, disp), ImmBytes(e, imm));
    }

    method EmitMemRegImm(e: X86EncodingMap, base: int, disp: int, reg: int, imm: int)
      requires ImmediateWidth(e.skeleton)
      modifies this`codeBuffer
      ensures codeBuffer == old(codeBuffer) + RegMemImmBytes(e, reg, base, disp, imm)
    {
      EmitRegMemImm(e, reg, base, disp, imm);
    }

    method EmitRegImm(e: X86EncodingMap, reg: int, imm: int)
      requires ImmediateWidth(e.skeleton)
      modifies this`codeBuffer
      ensures codeBuffer == old(codeBuffer) + RegImmBytes(e, reg, imm)
    {
      ghost var start := codeBuffer;
      EmitPrefix(e);
      ghost var middle := codeBuffer;
      if RegStorage.RegNum(reg) == kAxRegNum && e.skeleton.axOpcode != 0 {
        codeBuffer := codeBuffer + [e.skeleton.axOpcode];
      } else {
        EmitOpcode(e);
        codeBuffer := codeBuffer + [ModrmByte(3, e.skeleton.modrmOpcode, RegBits(reg))];
        Appended2(middle, OpcodeBytes(e), [ModrmByte(3, e.skeleton.modrmOpcode, RegBits(reg))]);
      }
      EmitImm(e, imm);
      Appended3(start, PrefixBytes(e),
                if RegStorage.RegNum(reg) == kAxRegNum && e.skeleton.axOpcode != 0 then [e.skeleton.axOpcode]
                else OpcodeBytes(e) + [ModrmByte(3, e.skeleton.modrmOpcode, RegBits(reg))],
                ImmBytes(e, imm));
    }

    method EmitMemImm(e: X86EncodingMap, base: int, disp: int, imm: int)
      requires ImmediateWidth(e.skeleton)
      modifies this`codeBuffer
      ensures codeBuffer == old(codeBuffer) + MemImmBytes(e, base, disp, imm)
    {
      ghost var start := codeBuffer;
      EmitPrefixAndOpcode(e);
      EmitModrmDisp(e.skeleton.modrmOpcode as int, base, disp);
      EmitImm(e, imm);
      Appended3(start, PrefixAndOpcodeBytes(e), ModrmDispBytes(e.skeleton.modrmOpcode as int, base, disp), ImmBytes(e, imm));
    }

    method EmitThreadImm(e: X86EncodingMap, disp: int, imm: int)
      requires ImmediateWidth(e.skeleton)
      modifies this`codeBuffer
      ensures codeBuffer == old(codeBuffer) + ThreadImmBytes(e, disp, imm)
    {
      ghost var start := codeBuffer;
      EmitPrefixAndOpcode(e);
      codeBuffer := codeBuffer + [ModrmByte(0, RegBits(e.skeleton.modrmOpcode as int), kBpRegNum as bv8)];
      Emit32(disp);
      EmitImm(e, imm);
      Appended4(start, PrefixAndOpcodeBytes(e), [ModrmByte(0, RegBits(e.skeleton.modrmOpcode as int), kBpRegNum as bv8)],
                LittleEndian(disp, 4), ImmBytes(e, imm));
    }

    /** The register is added to the row's one-byte opcode; the immediate has the row's width. */
    method EmitMovRegImm(e: X86EncodingMap, reg: int, imm: int)
      requires ImmediateWidth(e.skeleton)
      modifies this`codeBuffer
      ensures codeBuffer == old(codeBuffer) + MovRegImmBytes(e, reg, imm)
    {
      ghost var start := codeBuffer;
      EmitPrefix(e);
      codeBuffer := codeBuffer + [e.skeleton.opcode + RegBits(reg)];
      EmitImm(e, imm);
      Appended3(start, PrefixBytes(e), [e.skeleton.opcode + RegBits(reg)], ImmBytes(e, imm));
    }

    method EmitShiftRegImm(e: X86EncodingMap, reg: int, imm: int)
      modifies this`codeBuffer
      ensures codeBuffer == old(codeBuffer) + ShiftRegImmBytes(e, reg, imm)
    {
      ghost var start := codeBuffer;
      EmitPrefix(e);
      if imm != 1 {
        codeBuffer := codeBuffer + [e.skeleton.opcode];
      } else {
        codeBuffer := codeBuffer + [e.skeleton.axOpcode];
      }
      codeBuffer := codeBuffer + [ModrmByte(3, e.skeleton.modrmOpcode, RegBits(reg))];
      if imm != 1 {
        codeBuffer := codeBuffer + [Lo8(imm)];
      }
      Appended4(start, PrefixBytes(e), [if imm != 1 then e.skeleton.opcode else e.skeleton.axOpcode],
                [ModrmByte(3, e.skeleton.modrmOpcode, RegBits(reg))], if imm != 1 then [Lo8(imm)] else []);
    }

    /** The count register operand is fixed (CL) and appends nothing. */
    method EmitShiftRegCl(e: X86EncodingMap, reg: int)
      modifies this`codeBuffer
      ensures codeBuffer == old(codeBuffer) + ShiftRegClBytes(e, reg)
    {
      ghost var start := codeBuffer;
      EmitPrefix(e);
      codeBuffer := codeBuffer + [e.skeleton.opcode];
      codeBuffer := codeBuffer + [ModrmByte(3, e.skeleton.modrmOpcode, RegBits(reg))];
      Appended3(start, PrefixBytes(e), [e.skeleton.opcode], [ModrmByte(3, e.skeleton.modrmOpcode, RegBits(reg))]);
    }

    method EmitShiftMemCl(e: X86EncodingMap, base: int, disp: int)
      modifies this`codeBuffer
      ensures codeBuffer == old(codeBuffer) + ShiftMemClBytes(e, base, disp)
    {
      ghost var start := codeBuffer;
      EmitPrefix(e);
      codeBuffer := codeBuffer + [e.skeleton.opcode];
      EmitModrmDisp(e.skeleton.modrmOpcode as int, base, disp);
      Appended3(start, PrefixBytes(e), [e.skeleton.opcode], ModrmDispBytes(e.skeleton.modrmOpcode as int, base, disp));
    }

    method EmitShiftMemImm(e: X86EncodingMap, base: int, disp: int, imm: int)
      modifies this`codeBuffer
      ensures codeBuffer == old(codeBuffer) + ShiftMemImmBytes(e, base, disp, imm)
    {
      ghost var start := codeBuffer;
      EmitPrefix(e);
      if imm != 1 {
        codeBuffer := codeBuffer + [e.skeleton.opcode];
      } else {
        codeBuffer := codeBuffer + [e.skeleton.axOpcode];
      }
      EmitModrmDisp(e.skeleton.modrmOpcode as int, base, disp);
      if imm != 1 {
        codeBuffer := codeBuffer + [Lo8(imm)];
      }
      Appended4(start, PrefixBytes(e), [if imm != 1 then e.skeleton.opcode else e.skeleton.axOpcode],
                ModrmDispBytes(e.skeleton.modrmOpcode as int, base, disp), if imm != 1 then [Lo8(imm)] else []);
    }

    method EmitRegCond(e: X86EncodingMap, reg: int, condition: int)
      modifies this`codeBuffer
      ensures codeBuffer == old(codeBuffer) + RegCondBytes(e, reg, condition)
    {
      ghost var start := codeBuffer;
      EmitPrefix(e);
      codeBuffer := codeBuffer + [0x0F, 0x90 | Lo8(condition)];
      codeBuffer := codeBuffer + [ModrmByte(3, e.skeleton.modrmOpcode, RegBits(reg))];
      Appended3(start, PrefixBytes(e), [0x0F, 0x90 | Lo8(condition)], [ModrmByte(3, e.skeleton.modrmOpcode, RegBits(reg))]);
    }

    method EmitMemCond(e: X86EncodingMap, base: int, disp: int, condition: int)
      modifies this`codeBuffer
      ensures codeBuffer == old(codeBuffer) + MemCondBytes(e, base, disp, condition)
    {
      ghost var start := codeBuffer;
      EmitPrefix(e);
      codeBuffer := codeBuffer + [0x0F, 0x90 | Lo8(condition)];
      EmitModrmDisp(e.skeleton.modrmOpcode as int, base, disp);
      Appended3(start, PrefixBytes(e), [0x0F, 0x90 | Lo8(condition)], ModrmDispBytes(e.skeleton.modrmOpcode as int, base, disp));
    }

    method EmitRegRegCond(e: X86EncodingMap, reg1: int, reg2: int, condition: int)
      modifies this`codeBuffer
      ensures codeBuffer == old(codeBuffer) + RegRegCondBytes(e, reg1, reg2, condition)
    {
      ghost var start := codeBuffer;
      EmitPrefixAndOpcode(e);
      AddToLastByte(Lo8(condition));
      AppendedToLast(start, PrefixAndOpcodeBytes(e), Lo8(condition));
      codeBuffer := codeBuffer + [ModrmByte(3, RegBits(reg1), RegBits(reg2))];
      Appended2(start, AddToLast(PrefixAndOpcodeBytes(e), Lo8(condition)), [ModrmByte(3, RegBits(reg1), RegBits(reg2))]);
    }

    method EmitRegMemCond(e: X86EncodingMap, reg: int, base: int, disp: int, condition: int)
      modifies this`codeBuffer
      ensures codeBuffer == old(codeBuffer) + RegMemCondBytes(e, reg, base, disp, condition)
    {
      ghost var start := codeBuffer;
      EmitPrefixAndOpcode(e);
      AddToLastByte(Lo8(condition));
      AppendedToLast(start, PrefixAndOpcodeBytes(e), Lo8(condition));
      EmitModrmDisp(reg, base, disp);
      Appended2(start, AddToLast(PrefixAndOpcodeBytes(e), Lo8(condition)), ModrmDispBytes(reg, base, disp));
    }

    method EmitJmp(e: X86EncodingMap, rel: int)
      modifies this`codeBuffer
      ensures codeBuffer == old(codeBuffer) + JmpBytes(e, rel)
    {
      ghost var start := codeBuffer;
      if e.opcode == X86Jmp8 {
        codeBuffer := codeBuffer + [0xEB, Lo8(rel)];
      } else if e.opcode == X86Jmp32 {
        codeBuffer := codeBuffer + [0xE9];
        Emit32(rel);
        Appended2(start, [0xE9], LittleEndian(rel, 4));
      } else if e.opcode == X86Jecxz8 {
        codeBuffer := codeBuffer + [0xE3, Lo8(rel)];
      } else {
        codeBuffer := codeBuffer + [e.skeleton.opcode, ModrmByte(3, e.skeleton.modrmOpcode, RegBits(rel))];
      }
    }

    method EmitJcc(e: X86EncodingMap, rel: int, cc: int)
      modifies this`codeBuffer
      ensures codeBuffer == old(codeBuffer) + JccBytes(e, rel, cc)
    {
      ghost var start := codeBuffer;
      if e.opcode == X86Jcc8 {
        codeBuffer := codeBuffer + [0x70 | Lo8(cc), Lo8(rel)];
      } else {
        codeBuffer := codeBuffer + [0x0F, 0x80 | Lo8(cc)];
        Emit32(rel);
        Appended2(start, [0x0F, 0x80 | Lo8(cc)], LittleEndian(rel, 4));
      }
    }

    method EmitCallMem(e: X86EncodingMap, base: int, disp: int)
      modifies this`codeBuffer
      ensures codeBuffer == old(codeBuffer) + OpMemBytes(e, base, disp)
    {
      ghost var start := codeBuffer;
      EmitPrefixAndOpcode(e);
      EmitModrmDisp(e.skeleton.modrmOpcode as int, base, disp);
      Appended2(start, PrefixAndOpcodeBytes(e), ModrmDispBytes(e.skeleton.modrmOpcode as int, base, disp));
    }

    method EmitCallImmediate(e: X86EncodingMap, disp: int)
      modifies this`codeBuffer
      ensures codeBuffer == old(codeBuffer) + CallImmediateBytes(e, disp)
    {
      ghost var start := codeBuffer;
      EmitPrefixAndOpcode(e);
      Emit32(disp);
      Appended2(start, PrefixAndOpcodeBytes(e), LittleEndian(disp, 4));
    }

    method EmitCallThread(e: X86EncodingMap, disp: int)
      modifies this`codeBuffer
      ensures codeBuffer == old(codeBuffer) + CallThreadBytes(e, disp)
    {
      ghost var start := codeBuffer;
      EmitPrefixAndOpcode(e);
      codeBuffer := codeBuffer + [ModrmByte(0, RegBits(e.skeleton.modrmOpcode as int), kBpRegNum as bv8)];
      Emit32(disp);
      Appended3(start, PrefixAndOpcodeBytes(e), [ModrmByte(0, RegBits(e.skeleton.modrmOpcode as int), kBpRegNum as bv8)],
                LittleEndian(disp, 4));
    }

    /**
     * The displacement is the offset of the embedded table the instruction
     * refers to: operand 4 for a table load, operand 1 for a table address.
     */
    method EmitPcRel(e: X86EncodingMap, reg: int, baseOrTable: int, index: int, scale: int, tableOrDisp: int)
      modifies this`codeBuffer
      ensures codeBuffer == old(codeBuffer) +
                PcRelBytes(e, reg, baseOrTable, index, scale,
                           if e.opcode == X86PcRelLoadRA then tableOrDisp else baseOrTable)
    {
      var disp := if e.opcode == X86PcRelLoadRA then tableOrDisp else baseOrTable;
      ghost var start := codeBuffer;
      EmitPrefix(e);
      if e.opcode == X86PcRelLoadRA {
        codeBuffer := codeBuffer + [e.skeleton.opcode, ModrmByte(2, RegBits(reg), kSpRegNum as bv8),
                                    SibByte(scale, index, baseOrTable)];
      } else {
        codeBuffer := codeBuffer + [e.skeleton.opcode + RegBits(reg)];
      }
      Emit32(disp);
      Appended3(start, PrefixBytes(e),
                if e.opcode == X86PcRelLoadRA then
                  [e.skeleton.opcode, ModrmByte(2, RegBits(reg), kSpRegNum as bv8), SibByte(scale, index, baseOrTable)]
                else [e.skeleton.opcode + RegBits(reg)],
                LittleEndian(disp, 4));
    }

    method EmitMacro(reg: int, offset: int)
      modifies this`codeBuffer
      ensures codeBuffer == old(codeBuffer) + MacroBytes(reg, offset)
    {
      ghost var start := codeBuffer;
      codeBuffer := codeBuffer + [0xE8, 0, 0, 0, 0];
      codeBuffer := codeBuffer + [0x58 + RegBits(reg)];
      EmitRegImm(kSub32RIRow, RegStorage.RegNum(reg), offset + 5);
      Appended3(start, [0xE8, 0, 0, 0, 0], [0x58 + RegBits(reg)], RegImmBytes(kSub32RIRow, RegStorage.RegNum(reg), offset + 5));
    }

    /** One int3 per byte the instruction is predicted to take. */
    method EmitUnimplemented(e: X86EncodingMap, lir: Lir)
      modifies this`codeBuffer
      ensures codeBuffer == old(codeBuffer) + UnimplementedBytes(EntryInsnSize(e, lir))
    {
      var size := EntryInsnSize(e, lir);
      var i := 0;
      while i < size
        invariant 0 <= i <= if size < 0 then 0 else size
        invariant codeBuffer == old(codeBuffer) + UnimplementedBytes(i)
      {
        assert UnimplementedBytes(i + 1) == UnimplementedBytes(i) + [0xCC];
        codeBuffer := codeBuffer + [0xCC];
        i := i + 1;
      }
    }

    /**
     * The emission switch of the assembly pass: the emitter for the row's
     * kind, given the instruction's operands.
     */
    method EmitEntry(e: X86EncodingMap, lir: Lir)
      requires RowWellFormed(e)
      modifies this`codeBuffer
      ensures codeBuffer == old(codeBuffer) + EntryInsnBytes(e, lir)
    {
      ghost var expected := EntryInsnBytes(e, lir);
      match e.kind
      case Data => Emit32(lir.op0);
      case Nullary => EmitOpcode(e);
      case Prefix2Nullary => EmitPrefixAndOpcode(e);
      case RegOpcode => EmitOpRegOpcode(e, lir.op0);
      case Reg => EmitOpReg(e, lir.op0);
      case Mem => EmitOpMem(e, lir.op0, lir.op1);
      case Array => EmitOpArray(e, lir.op0, lir.op1, lir.op2, lir.op3);
      case MemReg => EmitMemReg(e, lir.op0, lir.op1, lir.op2);
      case MemImm => EmitMemImm(e, lir.op0, lir.op1, lir.op2);
      case ArrayImm => EmitArrayImm(e, lir.op0, lir.op1, lir.op2, lir.op3, lir.op4);
      case ArrayReg => EmitArrayReg(e, lir.op0, lir.op1, lir.op2, lir.op3, lir.op4);
      case RegMem => EmitRegMem(e, lir.op0, lir.op1, lir.op2);
      case RegArray => EmitRegArray(e, lir.op0, lir.op1, lir.op2, lir.op3, lir.op4);
      case RegThread => EmitRegThread(e, lir.op0, lir.op1);
      case RegReg => EmitRegReg(e, lir.op0, lir.op1);
      case RegRegStore => EmitRegReg(e, lir.op1, lir.op0);
      case RegRegImmRev => EmitRegRegImmRev(e, lir.op0, lir.op1, lir.op2);
      case MemRegImm => EmitMemRegImm(e, lir.op0, lir.op1, lir.op2, lir.op3);
      case RegRegImm => EmitRegRegImm(e, lir.op0, lir.op1, lir.op2);
      case RegMemImm => EmitRegMemImm(e, lir.op0, lir.op1, lir.op2, lir.op3);
      case RegImm => EmitRegImm(e, lir.op0, lir.op1);
      case ThreadImm => EmitThreadImm(e, lir.op0, lir.op1);
      case MovRegImm => EmitMovRegImm(e, lir.op0, lir.op1);
      case ShiftRegImm => EmitShiftRegImm(e, lir.op0, lir.op1);
      case ShiftMemImm => EmitShiftMemImm(e, lir.op0, lir.op1, lir.op2);
      case ShiftRegCl => EmitShiftRegCl(e, lir.op0);
      case ShiftMemCl => EmitShiftMemCl(e, lir.op0, lir.op1);
      case RegCond => EmitRegCond(e, lir.op0, lir.op1);
      case MemCond => EmitMemCond(e, lir.op0, lir.op1, lir.op2);
      case RegRegCond => EmitRegRegCond(e, lir.op0, lir.op1, lir.op2);
      case RegMemCond => EmitRegMemCond(e, lir.op0, lir.op1, lir.op2, lir.op3);
      case Jmp =>
        if e.opcode == X86JmpT {
          EmitCallThread(e, lir.op0);
        } else {
          EmitJmp(e, lir.op0);
        }
      case Jcc => EmitJcc(e, lir.op0, lir.op1);
      case Call =>
        if e.opcode == X86CallI {
          EmitCallImmediate(e, lir.op0);
        } else if e.opcode == X86CallM {
          EmitCallMem(e, lir.op0, lir.op1);
        } else if e.opcode == X86CallT {
          EmitCallThread(e, lir.op0);
        } else {
          EmitUnimplemented(e, lir);
        }
      case PcRel => EmitPcRel(e, lir.op0, lir.op1, lir.op2, lir.op3, lir.op4);
      case Macro => EmitMacro(lir.op0, lir.offset);
      case Nop => EmitUnimplemented(e, lir);
      case ThreadReg => EmitUnimplemented(e, lir);
      case RegArrayImm => EmitUnimplemented(e, lir);
      case ShiftArrayImm => EmitUnimplemented(e, lir);
      case ShiftArrayCl => EmitUnimplemented(e, lir);
      case ArrayCond => EmitUnimplemented(e, lir);
    }

    // -------------------------------------------------------------------
    // The assembly pass, the offset walk and the retry loop.

    /**
     * One assembly pass over the instruction list. Pseudo instructions and
     * nops are skipped, except that an Align4 the offset walk marked as
     * padding appends a two-byte nop while emission goes on; a live instruction with a fixup is fixed up against
     * its target's offset; once a fixup asks for another pass, later
     * instructions are still fixed up but no longer emitted. Each emitted
     * instruction must start where the buffer ends and must append as many
     * bytes as predicted, or a CHECK fails.
     */
    method AssembleInstructions(lirs: array<Lir>, safeOptimizations: bool) returns (outcome: PassOutcome)
      requires TargetsValid(lirs[..])
      modifies this`codeBuffer, lirs
      ensures outcome == EmitFrom(old(lirs[..]), 0, safeOptimizations, X86Encoder(), old(codeBuffer))
      ensures outcome.Completed? ==>
                lirs[..] == FixedList(old(lirs[..]), safeOptimizations, X86Encoder()) && codeBuffer == outcome.buffer
    {
      ghost var before := lirs[..];
      ghost var enc := X86Encoder();
      var status := Success;
      var i := 0;
      while i < lirs.Length
        invariant 0 <= i <= lirs.Length
        invariant lirs[..] == PartlyFixed(before, i, safeOptimizations, enc)
        invariant status == Success ==>
                    EmitFrom(before, 0, safeOptimizations, enc, old(codeBuffer)) ==
                    EmitFrom(before, i, safeOptimizations, enc, codeBuffer)
        invariant status == RetryAll ==>
                    EmitFrom(before, 0, safeOptimizations, enc, old(codeBuffer)) == Completed(RetryAll, codeBuffer)
      {
        PartlyFixedAt(before, i, i, safeOptimizations, enc);
        var lir := lirs[i];
        if IsPseudoLirOp(lir.opcode) || lir.isNop {
          PartlyFixedUnchanged(before, i, safeOptimizations, enc);
          if status == Success {
            if Pads(lir) {
              codeBuffer := codeBuffer + kAlignPadding;
            } else {
              assert codeBuffer + PadBytes(lir) == codeBuffer;
            }
          }
          i := i + 1;
          continue;
        }
        var failed;
        status, failed := AssembleLive(lirs, i, safeOptimizations, status, before);
        if failed {
          return CheckFailed(i);
        }
        i := i + 1;
      }
      outcome := Completed(status, codeBuffer);
    }

    /**
     * The step of the pass for live instruction i: its fixup, then, while
     * no fixup has asked for another pass, its emission between the two
     * CHECKs. Says whether a CHECK failed.
     */
    method AssembleLive(lirs: array<Lir>, i: nat, safeOptimizations: bool, status: AssemblerStatus,
                        ghost before: seq<Lir>)
      returns (newStatus: AssemblerStatus, failed: bool)
      requires i < lirs.Length == |before| && TargetsValid(before) && Live(before[i])
      requires lirs[..] == PartlyFixed(before, i, safeOptimizations, X86Encoder())
      requires status == Success || status == RetryAll
      modifies this`codeBuffer, lirs
      ensures lirs[..] == PartlyFixed(before, i + 1, safeOptimizations, X86Encoder())
      ensures status == RetryAll ==> newStatus == RetryAll && !failed && codeBuffer == old(codeBuffer)
      ensures status == Success && failed ==>
                EmitFrom(before, i, safeOptimizations, X86Encoder(), old(codeBuffer)) == CheckFailed(i)
      ensures status == Success && !failed && newStatus == Success ==>
                EmitFrom(before, i, safeOptimizations, X86Encoder(), old(codeBuffer)) ==
                EmitFrom(before, i + 1, safeOptimizations, X86Encoder(), codeBuffer)
      ensures status == Success && !failed && newStatus == RetryAll ==>
                EmitFrom(before, i, safeOptimizations, X86Encoder(), old(codeBuffer)) == Completed(RetryAll, codeBuffer)
    {
      PartlyFixedAt(before, i, i, safeOptimizations, X86Encoder());
      var lir := lirs[i];
      var retry := false;
      if lir.fixup != FixupNone {
        retry := FixupLir(lirs, i, safeOptimizations, before);
        lir := lirs[i];
      } else {
        PartlyFixedUnchanged(before, i, safeOptimizations, X86Encoder());
      }
      newStatus, failed := if retry then RetryAll else status, false;
      if newStatus == Success {
        var checked := EmitChecked(lir);
        failed := !checked;
      }
    }

    /**
     * The fixup of live instruction i, in place, against its target's
     * offset; says whether another pass is needed. Earlier instructions may
     * already be fixed up, but a fixup changes no offset.
     */
    static method FixupLir(lirs: array<Lir>, i: nat, safeOptimizations: bool, ghost before: seq<Lir>) returns (retry: bool)
      requires i < lirs.Length == |before| && TargetsValid(before)
      requires Live(before[i]) && before[i].fixup != FixupNone
      requires lirs[..] == PartlyFixed(before, i, safeOptimizations, X86Encoder())
      modifies lirs
      ensures lirs[..] == PartlyFixed(before, i + 1, safeOptimizations, X86Encoder())
      ensures (lirs[i], retry) == FixedInsn(before, i, safeOptimizations, X86Encoder())
    {
      PartlyFixedAt(before, i, i, safeOptimizations, X86Encoder());
      var lir := lirs[i];
      var target := lir.target;
      PartlyFixedAt(before, i, target, safeOptimizations, X86Encoder());
      var fixed;
      fixed, retry := FixupInsn(lir, lirs[target].offset, safeOptimizations, X86Encoder()).0,
                      FixupInsn(lir, lirs[target].offset, safeOptimizations, X86Encoder()).1;
      lirs[i] := fixed;
    }

    /**
     * The emission of one instruction between its two CHECKs: it must start
     * where the buffer ends, and must append as many bytes as predicted.
     */
    method EmitChecked(lir: Lir) returns (checked: bool)
      requires !IsPseudoLirOp(lir.opcode)
      modifies this`codeBuffer
      ensures checked <==> lir.offset == |old(codeBuffer)| && PredictedSize(lir) == |EncodedBytes(lir)|
      ensures checked ==> codeBuffer == old(codeBuffer) + EncodedBytes(lir)
    {
      if lir.offset != |codeBuffer| {
        return false;
      }
      var e := EncodingMap(lir.opcode.op);
      TableWellFormed(lir.opcode.op);
      var start := |codeBuffer|;
      EmitEntry(e, lir);
      checked := GetInsnSize(lir) == |codeBuffer| - start;
    }

    /**
     * The offset walk: each instruction gets the running offset; a live
     * instruction advances it by its size, an Align4 pads to a multiple of
     * four and records whether it did. Returns the end of the code.
     */
    method AssignInsnOffsets(lirs: array<Lir>) returns (offset: int)
      modifies lirs
      ensures lirs[..] == AssignedOffsets(old(lirs[..]))
      ensures offset == OffsetBefore(old(lirs[..]), lirs.Length)
    {
      ghost var before := lirs[..];
      offset := 0;
      var i := 0;
      while i < lirs.Length
        invariant 0 <= i <= lirs.Length
        invariant offset == OffsetBefore(before, i)
        invariant lirs[..] == PartlyPlaced(before, i)
      {
        PartlyPlacedAt(before, i, i);
        var lir, next := PlaceInsn(lirs[i], offset);
        lirs[i] := lir;
        offset := next;
        i := i + 1;
      }
    }

    /**
     * One step of the offset walk: the instruction gets the running offset;
     * a live instruction advances it by its size, an Align4 pads to a
     * multiple of four and records whether it did.
     */
    static method PlaceInsn(lir: Lir, offset: int) returns (placed: Lir, next: int)
      ensures placed == Placed(lir, offset) && next == Advance(lir, offset)
    {
      placed := lir.(offset := offset);
      next := offset;
      if !IsPseudoLirOp(lir.opcode) {
        if !lir.isNop {
          next := offset + lir.size;
        }
      } else if lir.opcode == Pseudo(PseudoPseudoAlign4) {
        if Bit1Set(offset) {
          next := offset + 2;
          placed := placed.(op0 := 1);
        } else {
          placed := placed.(op0 := 0);
        }
      }
    }

    /** The offset walk, then the start of the literal pool: the code's end rounded up to a word. */
    method AssignOffsets(lirs: array<Lir>)
      modifies lirs, this`dataOffset
      ensures lirs[..] == AssignedOffsets(old(lirs[..]))
      ensures dataOffset == RoundUp4(OffsetBefore(old(lirs[..]), lirs.Length))
      ensures dataOffset == RoundUp4(OffsetBefore(lirs[..], lirs.Length))
    {
      var offset := AssignInsnOffsets(lirs);
      offset := RoundUp4(offset);
      dataOffset := offset;
      AssignedOffsetsKeeps(old(lirs[..]));
      OffsetBeforeSame(old(lirs[..]), lirs[..], lirs.Length);
    }

    /**
     * When the method address was stored but never used, the two
     * instructions that set it up become nops.
     */
    method DropMethodAddress(lirs: array<Lir>)
      requires storeMethodAddr && !storeMethodAddrUsed ==>
                 setupMethodAddress0 < lirs.Length && setupMethodAddress1 < lirs.Length
      modifies lirs
      ensures lirs[..] == MethodAddressDropped(old(lirs[..]), storeMethodAddr && !storeMethodAddrUsed,
                                               setupMethodAddress0, setupMethodAddress1)
    {
      if storeMethodAddr && !storeMethodAddrUsed {
        lirs[setupMethodAddress0] := lirs[setupMethodAddress0].(isNop := true);
        lirs[setupMethodAddress1] := lirs[setupMethodAddress1].(isNop := true);
      }
    }

    /**
     * One pass of the retry loop, after offsets were assigned: the pass
     * itself, then either the end of assembly, or the count of retries
     * raised, offsets reassigned and the buffer cleared for the next pass.
     */
    method RetryPass(lirs: array<Lir>, safeOptimizations: bool, retries: nat) returns (finished: bool, outcome: AssemblyOutcome)
      requires TargetsValid(lirs[..]) && retries <= kMaxAssemblerRetries
      requires dataOffset == RoundUp4(OffsetBefore(lirs[..], lirs.Length))
      modifies lirs, this`codeBuffer, this`dataOffset
      ensures finished ==>
                outcome == AssembleRetries(old(lirs[..]), old(codeBuffer), retries, safeOptimizations, X86Encoder())
      ensures finished && outcome.Assembled? ==>
                lirs[..] == outcome.lirs && codeBuffer == outcome.buffer &&
                dataOffset == RoundUp4(OffsetBefore(outcome.lirs, lirs.Length))
      ensures !finished ==>
                retries < kMaxAssemblerRetries && TargetsValid(lirs[..]) &&
                dataOffset == RoundUp4(OffsetBefore(lirs[..], lirs.Length)) &&
                AssembleRetries(old(lirs[..]), old(codeBuffer), retries, safeOptimizations, X86Encoder()) ==
                AssembleRetries(lirs[..], codeBuffer, retries + 1, safeOptimizations, X86Encoder())
    {
      ghost var passStart := lirs[..];
      ghost var bufferStart := codeBuffer;
      AssembleRetriesStep(passStart, bufferStart, retries, safeOptimizations, X86Encoder());
      var res := AssembleInstructions(lirs, safeOptimizations);
      if res.CheckFailed? {
        return true, AssemblyCheckFailed(res.at);
      }
      if res.status == Success {
        PassSuccess(passStart, 0, safeOptimizations, X86Encoder(), bufferStart);
        PassSuccessEnd(passStart, safeOptimizations, X86Encoder(), bufferStart);
        return true, Assembled(lirs[..], codeBuffer, retries);
      }
      if retries + 1 > kMaxAssemblerRetries {
        return true, TooManyRetries;
      }
      AssignOffsets(lirs);
      codeBuffer := [];
      finished, outcome := false, TooManyRetries;
    }

    /**
     * Assembles the method: drops the method-address setup when nothing used
     * it, assigns offsets, and runs passes until one needs no fixup,
     * reassigning offsets and clearing the buffer before each retry and
     * giving up after kMaxAssemblerRetries retries.
     */
    method AssembleLIR(lirs: array<Lir>, safeOptimizations: bool) returns (outcome: AssemblyOutcome)
      requires TargetsValid(lirs[..])
      requires storeMethodAddr && !storeMethodAddrUsed ==>
                 setupMethodAddress0 < lirs.Length && setupMethodAddress1 < lirs.Length
      modifies lirs, this`codeBuffer, this`dataOffset
      ensures outcome ==
                AssembleRetries(AssignedOffsets(MethodAddressDropped(old(lirs[..]), storeMethodAddr && !storeMethodAddrUsed,
                                                                     setupMethodAddress0, setupMethodAddress1)),
                                old(codeBuffer), 0, safeOptimizations, X86Encoder())
      ensures outcome.Assembled? ==>
                lirs[..] == outcome.lirs && codeBuffer == outcome.buffer &&
                dataOffset == RoundUp4(OffsetBefore(outcome.lirs, lirs.Length))
    {
      DropMethodAddress(lirs);
      AssignOffsets(lirs);
      outcome := RetryLoop(lirs, safeOptimizations);
    }

    /** Passes until one needs no fixup, at most kMaxAssemblerRetries of them retries. */
    method RetryLoop(lirs: array<Lir>, safeOptimizations: bool) returns (outcome: AssemblyOutcome)
      requires TargetsValid(lirs[..])
      requires dataOffset == RoundUp4(OffsetBefore(lirs[..], lirs.Length))
      modifies lirs, this`codeBuffer, this`dataOffset
      ensures outcome == AssembleRetries(old(lirs[..]), old(codeBuffer), 0, safeOptimizations, X86Encoder())
      ensures outcome.Assembled? ==>
                lirs[..] == outcome.lirs && codeBuffer == outcome.buffer &&
                dataOffset == RoundUp4(OffsetBefore(outcome.lirs, lirs.Length))
    {
      ghost var expected := AssembleRetries(lirs[..], codeBuffer, 0, safeOptimizations, X86Encoder());
      var retries := 0;
      while true
        invariant 0 <= retries <= kMaxAssemblerRetries
        invariant TargetsValid(lirs[..])
        invariant expected == AssembleRetries(lirs[..], codeBuffer, retries, safeOptimizations, X86Encoder())
        invariant dataOffset == RoundUp4(OffsetBefore(lirs[..], lirs.Length))
        decreases kMaxAssemblerRetries - retries
      {
        var finished;
        finished, outcome := RetryPass(lirs, safeOptimizations, retries);
        if finished {
          return;
        }
        retries := retries + 1;
      }
    }
  }

  /**
   * The list with the two method-address setup instructions turned into
   * nops, when asked: only those two change, and only their is_nop flag.
   */
  function MethodAddressDropped(lirs: seq<Lir>, drop: bool, setup0: nat, setup1: nat): (r: seq<Lir>)
    requires drop ==> setup0 < |lirs| && setup1 < |lirs|
    ensures |r| == |lirs|
    ensures forall j {:trigger r[j]} :: 0 <= j < |lirs| ==>
              r[j] == (if drop && (j == setup0 || j == setup1) then lirs[j].(isNop := true) else lirs[j])
    ensures TargetsValid(lirs) ==> TargetsValid(r)
  {
    if drop then lirs[setup0 := lirs[setup0].(isNop := true)][setup1 := lirs[setup1].(isNop := true)]
    else lirs
  }

  lemma Appended2(b: seq<bv8>, x: seq<bv8>, y: seq<bv8>)
    ensures b + x + y == b + (x + y)
  {
  }

  lemma Appended3(b: seq<bv8>, x: seq<bv8>, y: seq<bv8>, z: seq<bv8>)
    ensures b + x + y + z == b + (x + y + z)
  {
  }

  lemma Appended4(b: seq<bv8>, w: seq<bv8>, x: seq<bv8>, y: seq<bv8>, z: seq<bv8>)
    ensures b + w + x + y + z == b + (w + x + y + z)
  {
  }

  /** Adding v to the last byte appended leaves the earlier bytes alone. */
  lemma AppendedToLast(buffer: seq<bv8>, s: seq<bv8>, v: bv8)
    requires |s| > 0
    ensures AddToLast(buffer + s, v) == buffer + AddToLast(s, v)
  {
    assert AddToLast(buffer + s, v) == (buffer + s)[|buffer + s| - 1 := s[|s| - 1] + v];
  }
}
