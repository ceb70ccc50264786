// One assembly pass over the instruction list, as functions: the branch
// and load fixups against the offsets assigned before the pass, and the
// emission walk that appends each instruction's bytes while no fixup has
// asked for another pass. Also the offsets the offset-assignment walk gives
// each instruction. The pass is stated for any encoder; X86Encoder is the
// one the assembler uses.
module X86Fixup {
  import opened Bytes
  import opened X86Encoding

  datatype AssemblerStatus = Success | RetryAll

  /**
   * What the emission walk of a pass ends with: a status and the code
   * buffer, or a failed CHECK at some instruction (the compiler aborts).
   */
  datatype PassOutcome = Completed(status: AssemblerStatus, buffer: seq<bv8>) | CheckFailed(at: nat)

  /**
   * What a pass needs from the encoder: the size an instruction is
   * predicted to take (also what is stored as its size when a fixup changes
   * it) and the bytes it appends.
   */
  datatype Encoder = Encoder(sizeOf: Lir -> int, bytesOf: Lir -> seq<bv8>)

  /** GetInsnSize, with pseudo instructions taking no space. */
  function PredictedSize(lir: Lir): int
  {
    if IsPseudoLirOp(lir.opcode) then 0 else GetInsnSize(lir)
  }

  /** The bytes the x86 emitters append, with pseudo instructions appending none. */
  function EncodedBytes(lir: Lir): seq<bv8>
  {
    if IsPseudoLirOp(lir.opcode) then [] else InsnBytes(lir)
  }

  /** The x86 encoder: the size rules of GetInsnSize and the bytes of the emitters. */
  function X86Encoder(): Encoder
  {
    Encoder(PredictedSize, EncodedBytes)
  }

  /** An instruction whose bytes are meant to match its predicted size. */
  predicate Encodable(lir: Lir)
  {
    !IsPseudoLirOp(lir.opcode) && (lir.opcode == Insn(X86Nop) ==> lir.op0 >= 0)
  }

  /** The branch opcodes whose operand 0 a fixup rewrites. */
  predicate IsBranchOp(op: LirOpcode)
  {
    op == Insn(X86Jcc8) || op == Insn(X86Jcc32) || op == Insn(X86Jecxz8) ||
    op == Insn(X86Jmp8) || op == Insn(X86Jmp32)
  }

  /** The instruction with its displacement operand replaced. */
  function WithDisplacement(lir: Lir, displacement: int): Lir
  {
    lir.(op0 := displacement)
  }

  /** An encoder whose bytes have the predicted length. */
  ghost predicate SizesMatch(enc: Encoder)
  {
    forall lir :: Encodable(lir) ==> |enc.bytesOf(lir)| == enc.sizeOf(lir)
  }

  /** An encoder in which a branch's size does not depend on its displacement. */
  ghost predicate BranchSizesFixed(enc: Encoder)
  {
    forall lir: Lir, d: int :: IsBranchOp(lir.opcode) ==> enc.sizeOf(WithDisplacement(lir, d)) == enc.sizeOf(lir)
  }

  /** The instruction with its stored offset and size replaced. */
  function Relocated(lir: Lir, offset: int, size: int): Lir
  {
    lir.(offset := offset, size := size)
  }

  /** An encoder whose predicted size depends on neither the stored offset nor the stored size. */
  ghost predicate LayoutFree(enc: Encoder)
  {
    forall lir: Lir, offset: int, size: int :: enc.sizeOf(Relocated(lir, offset, size)) == enc.sizeOf(lir)
  }

  /** Every instruction with a fixup has a target in the list. */
  predicate TargetsValid(lirs: seq<Lir>)
  {
    forall j :: 0 <= j < |lirs| && lirs[j].fixup != FixupNone ==> 0 <= lirs[j].target < |lirs|
  }

  /** An instruction the pass emits: neither a pseudo instruction nor a nop. */
  predicate Live(lir: Lir)
  {
    !IsPseudoLirOp(lir.opcode) && !lir.isNop
  }

  /** Whether an instruction's offset-relevant flags changed: opcode, is_nop or size. */
  predicate Changed(before: Lir, after: Lir)
  {
    after.opcode != before.opcode || after.isNop != before.isNop || after.size != before.size
  }

  /** What a pass may do to an instruction: relax a short branch, or turn a jump into a nop. */
  predicate Relaxed(before: Lir, after: Lir)
  {
    after.offset == before.offset && after.target == before.target && after.fixup == before.fixup &&
    (after.opcode == before.opcode ||
     (before.opcode == Insn(X86Jcc8) && after.opcode == Insn(X86Jcc32)) ||
     (before.opcode == Insn(X86Jmp8) && after.opcode == Insn(X86Jmp32))) &&
    (after.isNop ==> before.isNop || before.opcode == Insn(X86Jmp8)) &&
    (!IsBranchOp(before.opcode) ==> after.op0 == before.op0)
  }

  /**
   * The fixup of one instruction against its target's offset. A short branch
   * whose displacement no longer fits (or now fits, when it was long) is
   * promoted to the 32-bit form and its size recomputed; a jump to the next
   * instruction becomes a nop when safe optimizations are on; a load takes
   * its target's offset as operand 2 and its size is recomputed. The flag
   * says whether another pass is needed.
   */
  function FixupInsn(lir: Lir, targetOffset: int, safeOptimizations: bool, enc: Encoder): (r: (Lir, bool))
    requires Live(lir)
    ensures Relaxed(lir, r.0)
    ensures r.0.isNop ==> lir.opcode == Insn(X86Jmp8) && safeOptimizations
    ensures r.1 <==> Changed(lir, r.0)
    ensures r.0.opcode == Insn(X86Jcc8) ==> IsSimm8(r.0.op0) == IsSimm8(lir.op0)
    ensures r.0.opcode == Insn(X86Jmp8) && !r.0.isNop ==> IsSimm8(r.0.op0) == IsSimm8(lir.op0)
    ensures lir.opcode == Insn(X86Jcc8) && IsSimm8(lir.op0) ==> r.0.op0 == targetOffset - (lir.offset + 2)
    ensures lir.opcode == Insn(X86Jmp8) && IsSimm8(lir.op0) ==> r.0.op0 == targetOffset - (lir.offset + 2)
    ensures lir.opcode == Insn(X86Jcc32) ==> r.0.op0 == targetOffset - (lir.offset + 6)
    ensures lir.opcode == Insn(X86Jmp32) ==> r.0.op0 == targetOffset - (lir.offset + 5)
    ensures lir.opcode == Insn(X86Jecxz8) ==> r.0.op0 == targetOffset - (lir.offset + 2)
    ensures lir.fixup == FixupLoad && !IsBranchOp(lir.opcode) ==> r.0.op2 == targetOffset
  {
    if lir.opcode == Insn(X86Jcc8) then
      var pc := lir.offset + (if IsSimm8(lir.op0) then 2 else 6);
      var delta := targetOffset - pc;
      if IsSimm8(delta) != IsSimm8(lir.op0) then
        var promoted := lir.(opcode := Insn(X86Jcc32));
        (promoted.(size := enc.sizeOf(promoted), op0 := delta), true)
      else
        (WithDisplacement(lir, delta), false)
    else if lir.opcode == Insn(X86Jcc32) then
      (WithDisplacement(lir, targetOffset - (lir.offset + 6)), false)
    else if lir.opcode == Insn(X86Jecxz8) then
      (WithDisplacement(lir, targetOffset - (lir.offset + 2)), false)
    else if lir.opcode == Insn(X86Jmp8) then
      var pc := lir.offset + (if IsSimm8(lir.op0) then 2 else 5);
      var delta := targetOffset - pc;
      if safeOptimizations && delta == 0 then
        (lir.(isNop := true, op0 := delta), true)
      else if IsSimm8(delta) != IsSimm8(lir.op0) then
        var promoted := lir.(opcode := Insn(X86Jmp32));
        (promoted.(size := enc.sizeOf(promoted), op0 := delta), true)
      else
        (WithDisplacement(lir, delta), false)
    else if lir.opcode == Insn(X86Jmp32) then
      (WithDisplacement(lir, targetOffset - (lir.offset + 5)), false)
    else if lir.fixup == FixupLoad then
      var loaded := lir.(op2 := targetOffset);
      var newSize := enc.sizeOf(loaded);
      if newSize != lir.size then (loaded.(size := newSize), true) else (loaded, false)
    else
      (lir, false)
  }

  /**
   * A fixup leaves a live instruction storing its predicted size: a branch
   * keeps its size or is promoted with its size recomputed, and a load's
   * size is recomputed whenever it changes.
   */
  lemma FixupPredicts(lir: Lir, targetOffset: int, safeOptimizations: bool, enc: Encoder)
    requires Live(lir) && Encodable(lir) && lir.size == enc.sizeOf(lir)
    requires BranchSizesFixed(enc) && LayoutFree(enc)
    ensures var fixed := FixupInsn(lir, targetOffset, safeOptimizations, enc).0;
            !fixed.isNop ==> fixed.size == enc.sizeOf(fixed) && Encodable(fixed)
  {
    var (fixed, retry) := FixupInsn(lir, targetOffset, safeOptimizations, enc);
    if IsBranchOp(lir.opcode) && !fixed.isNop {
      if retry {
        var promoted := lir.(opcode := fixed.opcode);
        assert fixed == WithDisplacement(Relocated(promoted, promoted.offset, fixed.size), fixed.op0);
        assert enc.sizeOf(Relocated(promoted, promoted.offset, fixed.size)) == enc.sizeOf(promoted);
      } else {
        assert fixed == WithDisplacement(lir, fixed.op0);
      }
    } else if lir.fixup == FixupLoad && !IsBranchOp(lir.opcode) && retry {
      var loaded := lir.(op2 := targetOffset);
      assert fixed == Relocated(loaded, loaded.offset, fixed.size);
    }
  }

  /**
   * Live instruction i after its fixup (if it has one), against its
   * target's offset. A pass changes no offset, so the offsets of the list
   * it started from are the ones every fixup sees.
   */
  function FixedInsn(lirs: seq<Lir>, i: nat, safeOptimizations: bool, enc: Encoder): (r: (Lir, bool))
    requires i < |lirs| && TargetsValid(lirs) && Live(lirs[i])
    ensures Relaxed(lirs[i], r.0) && !IsPseudoLirOp(r.0.opcode)
    ensures r.1 <==> Changed(lirs[i], r.0)
    ensures !r.1 ==> Live(r.0)
    ensures lirs[i].fixup == FixupNone ==> r == (lirs[i], false)
  {
    var lir := lirs[i];
    if lir.fixup != FixupNone then FixupInsn(lir, lirs[lir.target].offset, safeOptimizations, enc)
    else (lir, false)
  }

  /** Instruction i as a pass leaves it: fixed up if live, untouched otherwise. */
  function FixedAt(lirs: seq<Lir>, i: nat, safeOptimizations: bool, enc: Encoder): (r: Lir)
    requires i < |lirs| && TargetsValid(lirs)
    ensures Relaxed(lirs[i], r)
    ensures !Live(lirs[i]) ==> r == lirs[i]
  {
    if Live(lirs[i]) then FixedInsn(lirs, i, safeOptimizations, enc).0 else lirs[i]
  }

  /** The list as a pass leaves it: every live instruction fixed up, whatever the status. */
  function FixedList(lirs: seq<Lir>, safeOptimizations: bool, enc: Encoder): (r: seq<Lir>)
    requires TargetsValid(lirs)
    ensures |r| == |lirs|
    ensures TargetsValid(r)
  {
    PartlyFixedTargets(lirs, |lirs|, safeOptimizations, enc);
    PartlyFixed(lirs, |lirs|, safeOptimizations, enc)
  }

  /** The list once a pass has dealt with its first i instructions, one update per step. */
  function PartlyFixed(lirs: seq<Lir>, i: nat, safeOptimizations: bool, enc: Encoder): (r: seq<Lir>)
    requires i <= |lirs| && TargetsValid(lirs)
    ensures |r| == |lirs|
  {
    if i == 0 then lirs
    else PartlyFixed(lirs, i - 1, safeOptimizations, enc)[i - 1 := FixedAt(lirs, i - 1, safeOptimizations, enc)]
  }

  /** After i steps the first i instructions are fixed up and the rest untouched. */
  lemma {:induction false} PartlyFixedAt(lirs: seq<Lir>, i: nat, j: nat, safeOptimizations: bool, enc: Encoder)
    requires i <= |lirs| && j < |lirs| && TargetsValid(lirs)
    ensures PartlyFixed(lirs, i, safeOptimizations, enc)[j] ==
              if j < i then FixedAt(lirs, j, safeOptimizations, enc) else lirs[j]
  {
    if i > 0 {
      PartlyFixedAt(lirs, i - 1, j, safeOptimizations, enc);
    }
  }

  /** Fixups never move a branch target out of the list. */
  lemma PartlyFixedTargets(lirs: seq<Lir>, i: nat, safeOptimizations: bool, enc: Encoder)
    requires i <= |lirs| && TargetsValid(lirs)
    ensures TargetsValid(PartlyFixed(lirs, i, safeOptimizations, enc))
  {
    forall j | 0 <= j < |lirs| {
      PartlyFixedAt(lirs, i, j, safeOptimizations, enc);
    }
  }

  /** A pass leaves an instruction that is not live, or has no fixup, as it was. */
  lemma PartlyFixedUnchanged(lirs: seq<Lir>, i: nat, safeOptimizations: bool, enc: Encoder)
    requires i < |lirs| && TargetsValid(lirs)
    requires !Live(lirs[i]) || lirs[i].fixup == FixupNone
    ensures PartlyFixed(lirs, i + 1, safeOptimizations, enc) == PartlyFixed(lirs, i, safeOptimizations, enc)
  {
    PartlyFixedAt(lirs, i, i, safeOptimizations, enc);
  }

  /** Instruction j as a pass leaves it. */
  lemma FixedListAt(lirs: seq<Lir>, j: nat, safeOptimizations: bool, enc: Encoder)
    requires j < |lirs| && TargetsValid(lirs)
    ensures FixedList(lirs, safeOptimizations, enc)[j] == FixedAt(lirs, j, safeOptimizations, enc)
  {
    PartlyFixedAt(lirs, |lirs|, j, safeOptimizations, enc);
  }

  /** A pass only relaxes instructions: every one keeps what Relaxed keeps. */
  lemma FixedListRelaxed(lirs: seq<Lir>, safeOptimizations: bool, enc: Encoder)
    requires TargetsValid(lirs)
    ensures forall j {:trigger FixedList(lirs, safeOptimizations, enc)[j]} :: 0 <= j < |lirs| ==>
              Relaxed(lirs[j], FixedList(lirs, safeOptimizations, enc)[j])
  {
    forall j | 0 <= j < |lirs| {
      FixedListAt(lirs, j, safeOptimizations, enc);
    }
  }

  /** The two-byte nop (operand-size prefix and NOP) that fills an Align4's pad. */
  const kAlignPadding: seq<bv8> := [0x66, 0x90]

  /** An Align4 pseudo instruction the offset walk marked as padding. */
  predicate Pads(lir: Lir)
  {
    lir.opcode == Pseudo(PseudoPseudoAlign4) && lir.op0 != 0
  }

  /** The bytes a skipped instruction appends: the pad of a padding Align4, nothing otherwise. */
  function PadBytes(lir: Lir): (r: seq<bv8>)
    ensures |r| == if Pads(lir) then 2 else 0
  {
    if Pads(lir) then kAlignPadding else []
  }

  /**
   * The emission walk of a pass from instruction i on, as the source writes
   * it: pseudo instructions and nops are skipped and append nothing, so an
   * Align4 that padded leaves the buffer two bytes short of the offsets.
   */
  function EmitFromAsWritten(lirs: seq<Lir>, i: nat, safeOptimizations: bool, enc: Encoder, buffer: seq<bv8>): PassOutcome
    requires i <= |lirs| && TargetsValid(lirs)
    decreases |lirs| - i
  {
    if i == |lirs| then Completed(Success, buffer)
    else if !Live(lirs[i]) then EmitFromAsWritten(lirs, i + 1, safeOptimizations, enc, buffer)
    else
      var (fixed, retry) := FixedInsn(lirs, i, safeOptimizations, enc);
      if retry then Completed(RetryAll, buffer)
      else if fixed.offset != |buffer| then CheckFailed(i)
      else if enc.sizeOf(fixed) != |enc.bytesOf(fixed)| then CheckFailed(i)
      else EmitFromAsWritten(lirs, i + 1, safeOptimizations, enc, buffer + enc.bytesOf(fixed))
  }

  /**
   * The emission walk of a pass from instruction i on. Pseudo instructions
   * and nops are skipped, an Align4 that padded appending its two pad bytes.
   * The first fixup that asks for another pass ends
   * the emission: later instructions are still fixed up, but nothing more
   * is appended and no more CHECKs are made. Otherwise each instruction must
   * start where the buffer ends and must append as many bytes as its
   * predicted size, or a CHECK fails.
   */
  function EmitFrom(lirs: seq<Lir>, i: nat, safeOptimizations: bool, enc: Encoder, buffer: seq<bv8>): PassOutcome
    requires i <= |lirs| && TargetsValid(lirs)
    decreases |lirs| - i
  {
    if i == |lirs| then Completed(Success, buffer)
    else if !Live(lirs[i]) then EmitFrom(lirs, i + 1, safeOptimizations, enc, buffer + PadBytes(lirs[i]))
    else
      var (fixed, retry) := FixedInsn(lirs, i, safeOptimizations, enc);
      if retry then Completed(RetryAll, buffer)
      else if fixed.offset != |buffer| then CheckFailed(i)
      else if enc.sizeOf(fixed) != |enc.bytesOf(fixed)| then CheckFailed(i)
      else EmitFrom(lirs, i + 1, safeOptimizations, enc, buffer + enc.bytesOf(fixed))
  }

  /** The bytes of the live instructions and Align4 pads from i on, in list order. */
  function EmittedFrom(lirs: seq<Lir>, i: nat, enc: Encoder): seq<bv8>
    requires i <= |lirs|
    decreases |lirs| - i
  {
    if i == |lirs| then []
    else if !Live(lirs[i]) then PadBytes(lirs[i]) + EmittedFrom(lirs, i + 1, enc)
    else enc.bytesOf(lirs[i]) + EmittedFrom(lirs, i + 1, enc)
  }

  /**
   * A pass that completes with Success changed no instruction's opcode,
   * is_nop or size, and appended exactly the bytes of the live instructions
   * of the list it leaves.
   */
  lemma {:induction false} PassSuccess(lirs: seq<Lir>, i: nat, safeOptimizations: bool, enc: Encoder, buffer: seq<bv8>)
    requires i <= |lirs| && TargetsValid(lirs)
    requires EmitFrom(lirs, i, safeOptimizations, enc, buffer).Completed?
    requires EmitFrom(lirs, i, safeOptimizations, enc, buffer).status == Success
    ensures forall j :: i <= j < |lirs| ==> !Changed(lirs[j], FixedList(lirs, safeOptimizations, enc)[j])
    ensures EmitFrom(lirs, i, safeOptimizations, enc, buffer).buffer ==
              buffer + EmittedFrom(FixedList(lirs, safeOptimizations, enc), i, enc)
    decreases |lirs| - i
  {
    var fixedList := FixedList(lirs, safeOptimizations, enc);
    if i < |lirs| {
      FixedListAt(lirs, i, safeOptimizations, enc);
      if !Live(lirs[i]) {
        PassSuccess(lirs, i + 1, safeOptimizations, enc, buffer + PadBytes(lirs[i]));
        assert buffer + PadBytes(lirs[i]) + EmittedFrom(fixedList, i + 1, enc) ==
               buffer + (PadBytes(lirs[i]) + EmittedFrom(fixedList, i + 1, enc));
      } else {
        var fixed := FixedInsn(lirs, i, safeOptimizations, enc).0;
        PassSuccess(lirs, i + 1, safeOptimizations, enc, buffer + enc.bytesOf(fixed));
        assert buffer + enc.bytesOf(fixed) + EmittedFrom(fixedList, i + 1, enc) ==
               buffer + (enc.bytesOf(fixed) + EmittedFrom(fixedList, i + 1, enc));
      }
    }
  }

  /** A pass that completes with Success leaves the end of the code where it was. */
  lemma PassSuccessEnd(lirs: seq<Lir>, safeOptimizations: bool, enc: Encoder, buffer: seq<bv8>)
    requires TargetsValid(lirs)
    requires EmitFrom(lirs, 0, safeOptimizations, enc, buffer).Completed?
    requires EmitFrom(lirs, 0, safeOptimizations, enc, buffer).status == Success
    ensures OffsetBefore(FixedList(lirs, safeOptimizations, enc), |lirs|) == OffsetBefore(lirs, |lirs|)
  {
    PassSuccess(lirs, 0, safeOptimizations, enc, buffer);
    FixedListRelaxed(lirs, safeOptimizations, enc);
    OffsetBeforeSame(lirs, FixedList(lirs, safeOptimizations, enc), |lirs|);
  }

  /** A pass that completes with RetryAll changed the opcode, is_nop or size of some live instruction. */
  lemma {:induction false} PassRetry(lirs: seq<Lir>, i: nat, safeOptimizations: bool, enc: Encoder, buffer: seq<bv8>)
    requires i <= |lirs| && TargetsValid(lirs)
    requires EmitFrom(lirs, i, safeOptimizations, enc, buffer).Completed?
    requires EmitFrom(lirs, i, safeOptimizations, enc, buffer).status == RetryAll
    ensures exists j :: i <= j < |lirs| && Live(lirs[j]) && Changed(lirs[j], FixedList(lirs, safeOptimizations, enc)[j])
    decreases |lirs| - i
  {
    var fixedList := FixedList(lirs, safeOptimizations, enc);
    assert i < |lirs|;
    FixedListAt(lirs, i, safeOptimizations, enc);
    if !Live(lirs[i]) {
      PassRetry(lirs, i + 1, safeOptimizations, enc, buffer + PadBytes(lirs[i]));
    } else if !FixedInsn(lirs, i, safeOptimizations, enc).1 {
      var fixed := FixedInsn(lirs, i, safeOptimizations, enc).0;
      PassRetry(lirs, i + 1, safeOptimizations, enc, buffer + enc.bytesOf(fixed));
    }
  }

  // ---------------------------------------------------------------------
  // Offsets.

  /** `offset & 2`: bit 1 of a non-negative offset, the remainder of half the offset modulo two. */
  predicate Bit1Set(offset: int)
  {
    (offset / 2) % 2 == 1
  }

  /** The offset after an instruction that starts at `offset`; Align4 pads to a multiple of four. */
  function Advance(lir: Lir, offset: int): int
  {
    if !IsPseudoLirOp(lir.opcode) then
      (if !lir.isNop then offset + lir.size else offset)
    else if lir.opcode == Pseudo(PseudoPseudoAlign4) && Bit1Set(offset) then offset + 2
    else offset
  }

  /** The offset the offset-assignment walk gives instruction i. */
  function OffsetBefore(lirs: seq<Lir>, i: nat): int
    requires i <= |lirs|
  {
    if i == 0 then 0 else Advance(lirs[i - 1], OffsetBefore(lirs, i - 1))
  }

  /** Instruction i as the walk leaves it: its offset set, and for Align4 whether it padded. */
  function Placed(lir: Lir, offset: int): Lir
  {
    if lir.opcode == Pseudo(PseudoPseudoAlign4) then
      lir.(offset := offset, op0 := if Bit1Set(offset) then 1 else 0)
    else
      lir.(offset := offset)
  }

  /** A list whose offsets are those the walk assigns. */
  predicate OffsetsAssigned(lirs: seq<Lir>)
  {
    forall j {:trigger OffsetBefore(lirs, j)} :: 0 <= j < |lirs| ==> lirs[j].offset == OffsetBefore(lirs, j)
  }

  /** With non-negative sizes, later instructions never start before earlier ones. */
  lemma {:induction false} OffsetsMonotone(lirs: seq<Lir>, i: nat, j: nat)
    requires i <= j <= |lirs|
    requires forall k :: 0 <= k < |lirs| ==> lirs[k].size >= 0
    ensures OffsetBefore(lirs, i) <= OffsetBefore(lirs, j)
    decreases j - i
  {
    if i < j {
      OffsetsMonotone(lirs, i, j - 1);
    }
  }

  /** Align4 leaves the next instruction at a multiple of four when it started at an even offset. */
  lemma AlignPads(lir: Lir, offset: int)
    requires lir.opcode == Pseudo(PseudoPseudoAlign4) && offset % 2 == 0
    ensures Advance(lir, offset) % 4 == 0
  {
  }

  // ---------------------------------------------------------------------
  // The CHECKs of a pass hold on a list laid out by the offset walk.

  /** Every live instruction stores its predicted size and is encodable. */
  predicate SizesPredicted(lirs: seq<Lir>, enc: Encoder)
  {
    forall j :: 0 <= j < |lirs| && Live(lirs[j]) ==> lirs[j].size == enc.sizeOf(lirs[j]) && Encodable(lirs[j])
  }

  /** Every Align4 is marked as padding exactly when the walk pads there. */
  predicate PadsAssigned(lirs: seq<Lir>)
  {
    forall j {:trigger OffsetBefore(lirs, j)} :: 0 <= j < |lirs| && lirs[j].opcode == Pseudo(PseudoPseudoAlign4) ==>
      (lirs[j].op0 != 0 <==> Bit1Set(OffsetBefore(lirs, j)))
  }

  /** On marked pads, a skipped instruction advances the walk by exactly the bytes it appends. */
  lemma SkippedAdvance(lirs: seq<Lir>, i: nat)
    requires i < |lirs| && PadsAssigned(lirs) && !Live(lirs[i])
    ensures OffsetBefore(lirs, i + 1) == OffsetBefore(lirs, i) + |PadBytes(lirs[i])|
  {
    assert OffsetBefore(lirs, i + 1) == Advance(lirs[i], OffsetBefore(lirs, i));
  }

  lemma {:induction false} EmitFromNeverFails(lirs: seq<Lir>, i: nat, safeOptimizations: bool, enc: Encoder, buffer: seq<bv8>)
    requires i <= |lirs| && TargetsValid(lirs) && OffsetsAssigned(lirs)
    requires SizesPredicted(lirs, enc) && PadsAssigned(lirs)
    requires SizesMatch(enc) && BranchSizesFixed(enc) && LayoutFree(enc)
    requires |buffer| == OffsetBefore(lirs, i)
    ensures EmitFrom(lirs, i, safeOptimizations, enc, buffer).Completed?
    decreases |lirs| - i
  {
    if i < |lirs| {
      var lir := lirs[i];
      if !Live(lir) {
        SkippedAdvance(lirs, i);
        EmitFromNeverFails(lirs, i + 1, safeOptimizations, enc, buffer + PadBytes(lir));
      } else {
        var (fixed, retry) := FixedInsn(lirs, i, safeOptimizations, enc);
        if !retry {
          if lir.fixup != FixupNone {
            FixupPredicts(lir, lirs[lir.target].offset, safeOptimizations, enc);
          }
          assert Encodable(fixed);
          assert fixed.offset == lir.offset == OffsetBefore(lirs, i);
          assert |enc.bytesOf(fixed)| == enc.sizeOf(fixed) == lir.size;
          assert OffsetBefore(lirs, i + 1) == OffsetBefore(lirs, i) + lir.size;
          EmitFromNeverFails(lirs, i + 1, safeOptimizations, enc, buffer + enc.bytesOf(fixed));
        }
      }
    }
  }

  /**
   * On a list whose offsets and Align4 pads come from the offset walk and
   * whose sizes are the predicted ones, neither CHECK of a pass fails: each
   * instruction starts where the buffer ends and appends as many bytes as
   * predicted.
   */
  lemma PassNeverFailsCheck(lirs: seq<Lir>, safeOptimizations: bool, enc: Encoder)
    requires TargetsValid(lirs) && OffsetsAssigned(lirs)
    requires SizesPredicted(lirs, enc) && PadsAssigned(lirs)
    requires SizesMatch(enc) && BranchSizesFixed(enc) && LayoutFree(enc)
    ensures EmitFrom(lirs, 0, safeOptimizations, enc, []).Completed?
  {
    EmitFromNeverFails(lirs, 0, safeOptimizations, enc, []);
  }

  /** A pass keeps every live instruction storing its predicted size. */
  lemma FixedListPredicted(lirs: seq<Lir>, safeOptimizations: bool, enc: Encoder)
    requires TargetsValid(lirs) && SizesPredicted(lirs, enc)
    requires BranchSizesFixed(enc) && LayoutFree(enc)
    ensures SizesPredicted(FixedList(lirs, safeOptimizations, enc), enc)
  {
    var fixedList := FixedList(lirs, safeOptimizations, enc);
    FixedListRelaxed(lirs, safeOptimizations, enc);
    forall j | 0 <= j < |lirs| && Live(fixedList[j])
      ensures fixedList[j].size == enc.sizeOf(fixedList[j]) && Encodable(fixedList[j])
    {
      FixedListAt(lirs, j, safeOptimizations, enc);
      var lir := lirs[j];
      if lir.fixup != FixupNone {
        FixupPredicts(lir, lirs[lir.target].offset, safeOptimizations, enc);
      }
    }
  }

  // ---------------------------------------------------------------------
  // Offsets again: the walk after a pass, and the retry loop.

  /** The walk reaches the same offsets on two lists that agree on every opcode, is_nop and size. */
  lemma {:induction false} OffsetBeforeSame(a: seq<Lir>, b: seq<Lir>, i: nat)
    requires i <= |a| == |b|
    requires forall j :: 0 <= j < |a| ==> !Changed(a[j], b[j])
    ensures OffsetBefore(a, i) == OffsetBefore(b, i)
  {
    if i > 0 {
      OffsetBeforeSame(a, b, i - 1);
    }
  }

  /**
   * The list as the offset walk leaves it: each instruction at the offset
   * the walk reached, nothing else changed but an Align4's padding flag.
   */
  function AssignedOffsets(lirs: seq<Lir>): (r: seq<Lir>)
    ensures |r| == |lirs|
    ensures TargetsValid(lirs) ==> TargetsValid(r)
  {
    PartlyPlacedTargets(lirs, |lirs|);
    PartlyPlaced(lirs, |lirs|)
  }

  /** The list once the walk has placed its first i instructions, one update per step. */
  function PartlyPlaced(lirs: seq<Lir>, i: nat): (r: seq<Lir>)
    requires i <= |lirs|
    ensures |r| == |lirs|
  {
    if i == 0 then lirs
    else PartlyPlaced(lirs, i - 1)[i - 1 := Placed(lirs[i - 1], OffsetBefore(lirs, i - 1))]
  }

  /** After i steps the first i instructions are placed and the rest untouched. */
  lemma {:induction false} PartlyPlacedAt(lirs: seq<Lir>, i: nat, j: nat)
    requires i <= |lirs| && j < |lirs|
    ensures PartlyPlaced(lirs, i)[j] == if j < i then Placed(lirs[j], OffsetBefore(lirs, j)) else lirs[j]
  {
    if i > 0 {
      PartlyPlacedAt(lirs, i - 1, j);
    }
  }

  /** Placing instructions never moves a branch target out of the list. */
  lemma PartlyPlacedTargets(lirs: seq<Lir>, i: nat)
    requires i <= |lirs|
    ensures TargetsValid(lirs) ==> TargetsValid(PartlyPlaced(lirs, i))
  {
    forall j | 0 <= j < |lirs| {
      PartlyPlacedAt(lirs, i, j);
    }
  }

  /** Instruction j as the walk leaves it. */
  lemma AssignedOffsetsAt(lirs: seq<Lir>, j: nat)
    requires j < |lirs|
    ensures AssignedOffsets(lirs)[j] == Placed(lirs[j], OffsetBefore(lirs, j))
  {
    PartlyPlacedAt(lirs, |lirs|, j);
  }

  /**
   * The walk moves every instruction to the offset it reached and changes
   * nothing else but an Align4's padding flag.
   */
  lemma AssignedOffsetsKeeps(lirs: seq<Lir>)
    ensures forall j {:trigger AssignedOffsets(lirs)[j]} :: 0 <= j < |lirs| ==>
              AssignedOffsets(lirs)[j].offset == OffsetBefore(lirs, j) && !Changed(lirs[j], AssignedOffsets(lirs)[j])
    ensures forall j {:trigger AssignedOffsets(lirs)[j]} :: 0 <= j < |lirs| ==>
              AssignedOffsets(lirs)[j].opcode == lirs[j].opcode &&
              (lirs[j].opcode == Pseudo(PseudoPseudoAlign4) ==>
                 (AssignedOffsets(lirs)[j].op0 != 0 <==> Bit1Set(OffsetBefore(lirs, j))))
    ensures forall j {:trigger AssignedOffsets(lirs)[j]} :: 0 <= j < |lirs| ==>
              AssignedOffsets(lirs)[j].target == lirs[j].target && AssignedOffsets(lirs)[j].fixup == lirs[j].fixup &&
              (lirs[j].opcode != Pseudo(PseudoPseudoAlign4) ==>
                 AssignedOffsets(lirs)[j] == Relocated(lirs[j], AssignedOffsets(lirs)[j].offset, lirs[j].size))
  {
    forall j | 0 <= j < |lirs| {
      AssignedOffsetsAt(lirs, j);
    }
  }

  /**
   * The walk's result is laid out: each offset, and each Align4's padding
   * mark, is the one the walk would assign to the result itself.
   */
  lemma AssignedOffsetsLaidOut(lirs: seq<Lir>)
    ensures OffsetsAssigned(AssignedOffsets(lirs)) && PadsAssigned(AssignedOffsets(lirs))
  {
    var r := AssignedOffsets(lirs);
    AssignedOffsetsKeeps(lirs);
    forall j | 0 <= j < |r|
      ensures r[j].offset == OffsetBefore(r, j)
      ensures r[j].opcode == Pseudo(PseudoPseudoAlign4) ==> (r[j].op0 != 0 <==> Bit1Set(OffsetBefore(r, j)))
    {
      OffsetBeforeSame(lirs, r, j);
    }
  }

  /** The walk places a list on predicted sizes without changing them. */
  lemma AssignedOffsetsPredicted(lirs: seq<Lir>, enc: Encoder)
    requires SizesPredicted(lirs, enc) && LayoutFree(enc)
    ensures SizesPredicted(AssignedOffsets(lirs), enc)
  {
    var r := AssignedOffsets(lirs);
    AssignedOffsetsKeeps(lirs);
    forall j | 0 <= j < |r| && Live(r[j])
      ensures r[j].size == enc.sizeOf(r[j]) && Encodable(r[j])
    {
      assert r[j] == Relocated(lirs[j], r[j].offset, lirs[j].size);
    }
  }

  /** MAX_ASSEMBLER_RETRIES: how many extra passes are allowed before assembly gives up. */
  const kMaxAssemblerRetries := 50

  /**
   * How assembling a method ends: with the final list, the code buffer and
   * the number of extra passes taken; with too many passes (the compiler
   * aborts); or with a failed CHECK.
   */
  datatype AssemblyOutcome =
    | Assembled(lirs: seq<Lir>, buffer: seq<bv8>, retries: nat)
    | TooManyRetries
    | AssemblyCheckFailed(at: nat)

  /**
   * The retry loop from its `retries`-th extra pass on: a pass; on RetryAll
   * the count goes up, the assembler gives up past the limit, and otherwise
   * offsets are reassigned and the buffer cleared for the next pass.
   */
  function AssembleRetries(lirs: seq<Lir>, buffer: seq<bv8>, retries: nat, safeOptimizations: bool, enc: Encoder): (r: AssemblyOutcome)
    requires TargetsValid(lirs) && retries <= kMaxAssemblerRetries
    ensures r.Assembled? ==> retries <= r.retries <= kMaxAssemblerRetries && |r.lirs| == |lirs|
    decreases kMaxAssemblerRetries - retries
  {
    match EmitFrom(lirs, 0, safeOptimizations, enc, buffer)
    case CheckFailed(at) => AssemblyCheckFailed(at)
    case Completed(status, out) =>
      var fixedList := FixedList(lirs, safeOptimizations, enc);
      if status == Success then Assembled(fixedList, out, retries)
      else if retries + 1 > kMaxAssemblerRetries then TooManyRetries
      else AssembleRetries(AssignedOffsets(fixedList), [], retries + 1, safeOptimizations, enc)
  }

  /** One turn of the retry loop, spelled out by the outcome of the pass. */
  lemma AssembleRetriesStep(lirs: seq<Lir>, buffer: seq<bv8>, retries: nat, safeOptimizations: bool, enc: Encoder)
    requires TargetsValid(lirs) && retries <= kMaxAssemblerRetries
    ensures var pass := EmitFrom(lirs, 0, safeOptimizations, enc, buffer);
            AssembleRetries(lirs, buffer, retries, safeOptimizations, enc) ==
              if pass.CheckFailed? then AssemblyCheckFailed(pass.at)
              else if pass.status == Success then Assembled(FixedList(lirs, safeOptimizations, enc), pass.buffer, retries)
              else if retries + 1 > kMaxAssemblerRetries then TooManyRetries
              else AssembleRetries(AssignedOffsets(FixedList(lirs, safeOptimizations, enc)), [], retries + 1, safeOptimizations, enc)
  {
  }

  /**
   * When assembly succeeds from laid-out offsets and an empty buffer, the
   * final list is laid out too (its pads as well, when the first list's
   * were), and the code is exactly the bytes of its live instructions and
   * pads in order: each instruction sits at its own offset.
   */
  lemma {:induction false} AssembledLayout(lirs: seq<Lir>, retries: nat, safeOptimizations: bool, enc: Encoder)
    requires TargetsValid(lirs) && retries <= kMaxAssemblerRetries && OffsetsAssigned(lirs)
    ensures var r := AssembleRetries(lirs, [], retries, safeOptimizations, enc);
            r.Assembled? ==> OffsetsAssigned(r.lirs) && r.buffer == EmittedFrom(r.lirs, 0, enc)
    ensures var r := AssembleRetries(lirs, [], retries, safeOptimizations, enc);
            r.Assembled? && PadsAssigned(lirs) ==> PadsAssigned(r.lirs)
    decreases kMaxAssemblerRetries - retries
  {
    var outcome := EmitFrom(lirs, 0, safeOptimizations, enc, []);
    if outcome.Completed? {
      var fixedList := FixedList(lirs, safeOptimizations, enc);
      if outcome.status == Success {
        PassSuccess(lirs, 0, safeOptimizations, enc, []);
        FixedListRelaxed(lirs, safeOptimizations, enc);
        forall j | 0 <= j < |fixedList|
          ensures fixedList[j].offset == OffsetBefore(fixedList, j)
          ensures OffsetBefore(fixedList, j) == OffsetBefore(lirs, j)
        {
          OffsetBeforeSame(lirs, fixedList, j);
        }
      } else if retries + 1 <= kMaxAssemblerRetries {
        AssignedOffsetsLaidOut(fixedList);
        AssembledLayout(AssignedOffsets(fixedList), retries + 1, safeOptimizations, enc);
      }
    }
  }

  /**
   * From laid-out offsets and pads, predicted sizes and an empty buffer, no
   * CHECK fails on any pass, and a successful result keeps sizes predicted.
   */
  lemma {:induction false} AssemblyNeverFailsCheck(lirs: seq<Lir>, retries: nat, safeOptimizations: bool, enc: Encoder)
    requires TargetsValid(lirs) && retries <= kMaxAssemblerRetries && OffsetsAssigned(lirs)
    requires SizesPredicted(lirs, enc) && PadsAssigned(lirs)
    requires SizesMatch(enc) && BranchSizesFixed(enc) && LayoutFree(enc)
    ensures var r := AssembleRetries(lirs, [], retries, safeOptimizations, enc);
            !r.AssemblyCheckFailed? && (r.Assembled? ==> SizesPredicted(r.lirs, enc))
    decreases kMaxAssemblerRetries - retries
  {
    PassNeverFailsCheck(lirs, safeOptimizations, enc);
    FixedListPredicted(lirs, safeOptimizations, enc);
    var fixedList := FixedList(lirs, safeOptimizations, enc);
    if EmitFrom(lirs, 0, safeOptimizations, enc, []).status == RetryAll && retries + 1 <= kMaxAssemblerRetries {
      AssignedOffsetsPredicted(fixedList, enc);
      AssignedOffsetsLaidOut(fixedList);
      AssemblyNeverFailsCheck(AssignedOffsets(fixedList), retries + 1, safeOptimizations, enc);
    }
  }

  /** On predicted sizes and marked pads, the bytes from i on span the rest of the walk. */
  lemma {:induction false} EmittedLength(lirs: seq<Lir>, i: nat, enc: Encoder)
    requires i <= |lirs| && SizesPredicted(lirs, enc) && PadsAssigned(lirs) && SizesMatch(enc)
    ensures |EmittedFrom(lirs, i, enc)| == OffsetBefore(lirs, |lirs|) - OffsetBefore(lirs, i)
    decreases |lirs| - i
  {
    if i < |lirs| {
      EmittedLength(lirs, i + 1, enc);
      if !Live(lirs[i]) {
        SkippedAdvance(lirs, i);
      } else {
        assert OffsetBefore(lirs, i + 1) == Advance(lirs[i], OffsetBefore(lirs, i));
      }
    }
  }

  // ---------------------------------------------------------------------
  // An Align4 pad as the source writes the pass.

  /** A one-byte `ret` with no fixup, stored at its predicted size. */
  const kRet := Lir(Insn(X86Ret), 0, 0, 0, 0, 0, 0, 1, false, FixupNone, 0)

  /** An Align4 pseudo instruction before the walk has marked it. */
  const kAlign4 := Lir(Pseudo(PseudoPseudoAlign4), 0, 0, 0, 0, 0, 0, 0, false, FixupNone, 0)

  /** Two one-byte returns, an Align4 and a third return, before the walk. */
  const kAlignExample := [kRet, kRet, kAlign4, kRet]

  /** The example as the walk lays it out: the Align4 at offset 2 pads, and the third return moves to 4. */
  lemma AlignExampleLaidOut()
    ensures AssignedOffsets(kAlignExample) ==
              [kRet, kRet.(offset := 1), kAlign4.(offset := 2, op0 := 1), kRet.(offset := 4)]
  {
    var src := kAlignExample;
    assert OffsetBefore(src, 1) == 1 && OffsetBefore(src, 2) == 2 && OffsetBefore(src, 3) == 4;
    AssignedOffsetsAt(src, 0);
    AssignedOffsetsAt(src, 1);
    AssignedOffsetsAt(src, 2);
    AssignedOffsetsAt(src, 3);
  }

  /** A return takes the one byte C3 wherever it is placed. */
  lemma RetEncoding(offset: int)
    ensures X86Encoder().sizeOf(kRet.(offset := offset)) == 1
    ensures X86Encoder().bytesOf(kRet.(offset := offset)) == [0xC3]
  {
    assert EncodingMap(X86Ret).kind == Nullary && EncodingMap(X86Ret).skeleton.opcode == 0xC3;
  }

  /**
   * On the laid-out example, as written the pass appends no pad at the
   * Align4, so the third return's offset CHECK fails; with the pad
   * appended the pass completes with the five bytes laid out.
   */
  lemma AlignPadMismatchAsWritten()
    ensures var lirs := AssignedOffsets(kAlignExample);
            OffsetsAssigned(lirs) && PadsAssigned(lirs) && SizesPredicted(lirs, X86Encoder()) &&
            EmitFromAsWritten(lirs, 0, false, X86Encoder(), []) == CheckFailed(3) &&
            EmitFrom(lirs, 0, false, X86Encoder(), []) == Completed(Success, [0xC3, 0xC3, 0x66, 0x90, 0xC3])
  {
    var lirs := AssignedOffsets(kAlignExample);
    AssignedOffsetsLaidOut(kAlignExample);
    AlignExampleLaidOut();
    var enc := X86Encoder();
    RetEncoding(0);
    RetEncoding(1);
    RetEncoding(4);
    assert lirs[0] == kRet.(offset := 0) && lirs[1] == kRet.(offset := 1) && lirs[3] == kRet.(offset := 4);
    assert Live(lirs[0]) && Live(lirs[1]) && !Live(lirs[2]) && Live(lirs[3]) && Pads(lirs[2]);
    assert SizesPredicted(lirs, enc);
    assert FixedInsn(lirs, 0, false, enc) == (lirs[0], false);
    assert FixedInsn(lirs, 1, false, enc) == (lirs[1], false);
    assert FixedInsn(lirs, 3, false, enc) == (lirs[3], false);
    var b1: seq<bv8>, b2: seq<bv8>, b4: seq<bv8>, b5: seq<bv8> := [0xC3], [0xC3, 0xC3], [0xC3, 0xC3, 0x66, 0x90], [0xC3, 0xC3, 0x66, 0x90, 0xC3];
    assert [] + enc.bytesOf(lirs[0]) == b1;
    assert b1 + enc.bytesOf(lirs[1]) == b2;
    assert b2 + PadBytes(lirs[2]) == b4;
    assert b4 + enc.bytesOf(lirs[3]) == b5;
    assert EmitFromAsWritten(lirs, 3, false, enc, b2) == CheckFailed(3);
    assert EmitFromAsWritten(lirs, 2, false, enc, b2) == CheckFailed(3);
    assert EmitFromAsWritten(lirs, 1, false, enc, b1) == CheckFailed(3);
    assert EmitFrom(lirs, 4, false, enc, b5) == Completed(Success, b5);
    assert EmitFrom(lirs, 3, false, enc, b4) == Completed(Success, b5);
    assert EmitFrom(lirs, 2, false, enc, b2) == Completed(Success, b5);
    assert EmitFrom(lirs, 1, false, enc, b1) == Completed(Success, b5);
  }

  // ---------------------------------------------------------------------
  // The x86 encoder meets what the pass theorems ask of an encoder.

  lemma X86SizesMatch()
    ensures SizesMatch(X86Encoder())
  {
    forall lir | Encodable(lir)
      ensures |X86Encoder().bytesOf(lir)| == X86Encoder().sizeOf(lir)
    {
      InsnBytesLength(lir);
    }
  }

  lemma X86BranchSizesFixed()
    ensures BranchSizesFixed(X86Encoder())
  {
    forall lir: Lir, d: int | IsBranchOp(lir.opcode)
      ensures X86Encoder().sizeOf(WithDisplacement(lir, d)) == X86Encoder().sizeOf(lir)
    {
      BranchSizeIgnoresDisplacement(lir, d);
    }
  }

  lemma BranchSizeIgnoresDisplacement(lir: Lir, d: int)
    requires IsBranchOp(lir.opcode)
    ensures GetInsnSize(WithDisplacement(lir, d)) == GetInsnSize(lir)
  {
    BranchRowKind(lir.opcode.op);
    EntrySizeIgnoresDisplacement(EncodingMap(lir.opcode.op), lir, d);
  }

  lemma BranchRowKind(op: X86OpCode)
    requires IsBranchOp(Insn(op))
    ensures EncodingMap(op).kind == Jcc || EncodingMap(op).kind == Jmp
  {
    if op == X86Jcc8 || op == X86Jcc32 {
      assert EncodingMap(op).kind == Jcc;
    } else {
      assert EncodingMap(op).kind == Jmp;
    }
  }

  lemma EntrySizeIgnoresDisplacement(e: X86EncodingMap, lir: Lir, d: int)
    requires e.kind == Jcc || e.kind == Jmp
    ensures EntryInsnSize(e, WithDisplacement(lir, d)) == EntryInsnSize(e, lir)
  {
  }

  lemma X86LayoutFree()
    ensures LayoutFree(X86Encoder())
  {
    forall lir: Lir, offset: int, size: int
      ensures X86Encoder().sizeOf(Relocated(lir, offset, size)) == X86Encoder().sizeOf(lir)
    {
      if !IsPseudoLirOp(lir.opcode) {
        EntrySizeIgnoresLayout(EncodingMap(lir.opcode.op), lir, offset, size);
      }
    }
  }

  lemma EntrySizeIgnoresLayout(e: X86EncodingMap, lir: Lir, offset: int, size: int)
    ensures EntryInsnSize(e, Relocated(lir, offset, size)) == EntryInsnSize(e, lir)
  {
  }
}
