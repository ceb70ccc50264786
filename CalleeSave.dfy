// The frames of the runtime's callee-save methods: for each instruction
// set and each kind of callee-save frame, which core and floating-point
// registers the frame spills (as bit masks, bit n for register n) and how
// large the frame is. A frame holds the spilled registers and the Method*,
// rounded up to the stack alignment.
//
// Register numbers, pointer sizes and the stack alignment come from
// headers that are not part of this model; they are named constants here.
module CalleeSave {

  import Bytes

  datatype InstructionSet = kNone | kArm | kArm64 | kThumb2 | kX86 | kX86_64 | kMips

  /** kSaveAll spills every callee-save register; kRefsOnly those that may hold references; kRefsAndArgs those and the argument registers. */
  datatype CalleeSaveType = kSaveAll | kRefsOnly | kRefsAndArgs

  /** What CreateCalleeSaveMethod sets on the method it creates. */
  datatype Frame = Frame(frameSizeInBytes: nat, coreSpillMask: bv32, fpSpillMask: bv32)

  datatype Option<T> = None | Some(value: T)

  const kStackAlignment := 16
  const kArmPointerSize := 4
  const kArm64PointerSize := 8
  const kMipsPointerSize := 4
  const kX86PointerSize := 4
  const kX86_64PointerSize := 8

  // ARM core registers R0-R15 (LR is R14); single-precision registers S0-S31.
  const kArmLR: bv32 := 14
  // MIPS: A1-A3 are 5-7, S0-S7 are 16-23, GP 28, FP 30, RA 31.
  const kMipsA1: bv32 := 5
  const kMipsS0: bv32 := 16
  const kMipsGP: bv32 := 28
  const kMipsFP: bv32 := 30
  const kMipsRA: bv32 := 31
  // x86: ECX 1, EDX 2, EBX 3, EBP 5, ESI 6, EDI 7; eight core registers.
  const kX86NumberOfCpuRegisters: bv32 := 8
  // x86-64: RCX 1, RDX 2, RBX 3, RBP 5, RSI 6, R8-R15 8-15; sixteen core registers; XMM0-XMM7 0-7.
  const kX86_64NumberOfCpuRegisters: bv32 := 16
  // ARM64: X0-X30, X18 the platform register, FP X29, LR X30; D0-D31.
  const kArm64X18: bv32 := 18
  const kArm64FP: bv32 := 29
  const kArm64LR: bv32 := 30

  /** 1 << n. */
  function Bit(n: bv32): bv32
    requires n < 32
  {
    1 << n
  }

  /** Whether mask x names register n. */
  predicate Spills(x: bv32, n: nat)
  {
    n < 32 && x & Bit(n as bv32) != 0
  }

  /** The registers a mask names. */
  function Registers(x: bv32): set<nat>
  {
    set n: nat | n < 32 && Spills(x, n)
  }

  /** POPCOUNT: the number of set bits. */
  function PopCount(x: bv32): nat
  {
    |Registers(x)|
  }

  /** RoundUp(x, n): the least multiple of n that is at least x. */
  function RoundUp(x: nat, n: nat): (r: nat)
    requires n > 0
    ensures r % n == 0 && x <= r < x + n
  {
    var q := (x + n - 1) / n;
    Bytes.ModUnique(q * n, n, q, 0);
    q * n
  }

  // ---------------------------------------------------------------------
  // The spill masks of each instruction set.

  /**
   * The registers that may hold references, always spilled: ARM R5-R8, R10,
   * R11; MIPS S2-S7 (18-23), GP, FP; x86 EBP, ESI, EDI; x86-64 RBX, RBP,
   * R12-R15; ARM64 X19-X28.
   */
  function RefSpills(isa: InstructionSet): bv32
  {
    match isa
    case kArm | kThumb2 => Bit(5) | Bit(6) | Bit(7) | Bit(8) | Bit(10) | Bit(11)
    case kMips => Bit(18) | Bit(19) | Bit(20) | Bit(21) | Bit(22) | Bit(23) | Bit(kMipsGP) | Bit(kMipsFP)
    case kX86 => Bit(5) | Bit(6) | Bit(7)
    case kX86_64 => Bit(3) | Bit(5) | Bit(12) | Bit(13) | Bit(14) | Bit(15)
    case kArm64 =>
      Bit(19) | Bit(20) | Bit(21) | Bit(22) | Bit(23) | Bit(24) | Bit(25) | Bit(26) |
      Bit(27) | Bit(28)
    case kNone => 0
  }

  /**
   * The argument registers, spilled in a kRefsAndArgs frame: ARM R1-R3;
   * MIPS A1-A3; x86 ECX, EDX, EBX; x86-64 RSI, RDX, RCX, R8, R9; ARM64 X1-X7
   * (X0 holds the Method* and is not saved).
   */
  function ArgSpills(isa: InstructionSet): bv32
  {
    match isa
    case kArm | kThumb2 => Bit(1) | Bit(2) | Bit(3)
    case kMips => Bit(kMipsA1) | Bit(kMipsA1 + 1) | Bit(kMipsA1 + 2)
    case kX86 => Bit(1) | Bit(2) | Bit(3)
    case kX86_64 => Bit(6) | Bit(2) | Bit(1) | Bit(8) | Bit(9)
    case kArm64 => Bit(1) | Bit(2) | Bit(3) | Bit(4) | Bit(5) | Bit(6) | Bit(7)
    case kNone => 0
  }

  /** The further registers of a kSaveAll frame: ARM R4, R9; MIPS S0, S1; none on ARM64. */
  function AllSpills(isa: InstructionSet): bv32
  {
    match isa
    case kArm | kThumb2 => Bit(4) | Bit(9)
    case kMips => Bit(kMipsS0) | Bit(kMipsS0 + 1)
    case kArm64 => 0
    case kX86 | kX86_64 | kNone => 0
  }

  /**
   * Spilled in every frame: the return address (LR, RA, or on x86 a fake
   * register just past the real ones) and on ARM64 also FP and X18.
   */
  function ReturnSpills(isa: InstructionSet): bv32
  {
    match isa
    case kArm | kThumb2 => Bit(kArmLR)
    case kMips => Bit(kMipsRA)
    case kX86 => Bit(kX86NumberOfCpuRegisters)
    case kX86_64 => Bit(kX86_64NumberOfCpuRegisters)
    case kArm64 => Bit(kArm64FP) | Bit(kArm64X18) | Bit(kArm64LR)
    case kNone => 0
  }

  /** ARM S0-S31. */
  function ArmFpAllSpills(): bv32
  {
    Bit(0) | Bit(1) | Bit(2) | Bit(3) | Bit(4) | Bit(5) | Bit(6) | Bit(7) |
    Bit(8) | Bit(9) | Bit(10) | Bit(11) | Bit(12) | Bit(13) | Bit(14) | Bit(15) |
    Bit(16) | Bit(17) | Bit(18) | Bit(19) | Bit(20) | Bit(21) | Bit(22) | Bit(23) |
    Bit(24) | Bit(25) | Bit(26) | Bit(27) | Bit(28) | Bit(29) | Bit(30) | Bit(31)
  }

  /** x86-64 XMM0-XMM7 and ARM64 D0-D7, the fp argument registers. */
  function FpArgSpills(): bv32
  {
    Bit(0) | Bit(1) | Bit(2) | Bit(3) | Bit(4) | Bit(5) | Bit(6) | Bit(7)
  }

  /** ARM64 D8-D15. */
  function Arm64FpRefSpills(): bv32
  {
    Bit(8) | Bit(9) | Bit(10) | Bit(11) | Bit(12) | Bit(13) | Bit(14) | Bit(15)
  }

  /** ARM64 D16-D31. */
  function Arm64FpHighSpills(): bv32
  {
    Bit(16) | Bit(17) | Bit(18) | Bit(19) | Bit(20) | Bit(21) | Bit(22) | Bit(23) |
    Bit(24) | Bit(25) | Bit(26) | Bit(27) | Bit(28) | Bit(29) | Bit(30) | Bit(31)
  }

  /** The core spill mask: x86 and x86-64 have no kSaveAll-only registers. */
  function CoreSpills(isa: InstructionSet, t: CalleeSaveType): bv32
  {
    var args := if t == kRefsAndArgs then ArgSpills(isa) else 0;
    var all := if t == kSaveAll then AllSpills(isa) else 0;
    match isa
    case kX86 | kX86_64 => RefSpills(isa) | args | ReturnSpills(isa)
    case _ => RefSpills(isa) | args | all | ReturnSpills(isa)
  }

  /**
   * The fp spill mask: ARM spills S0-S31 in kSaveAll; x86-64 XMM0-XMM7 in
   * kRefsAndArgs; ARM64 D8-D15 always, D0-D7 in kRefsAndArgs and D0-D7 and
   * D16-D31 in kSaveAll; MIPS and x86 none.
   */
  function FpSpills(isa: InstructionSet, t: CalleeSaveType): bv32
  {
    match isa
    case kArm | kThumb2 => if t == kSaveAll then ArmFpAllSpills() else 0
    case kX86_64 => if t == kRefsAndArgs then FpArgSpills() else 0
    case kArm64 =>
      Arm64FpRefSpills() | (if t == kRefsAndArgs then FpArgSpills() else 0) |
      (if t == kSaveAll then FpArgSpills() | Arm64FpHighSpills() else 0)
    case kMips | kX86 | kNone => 0
  }

  /**
   * The pointer-sized slots of a frame: the spilled registers and the
   * Method*; MIPS counts no fp registers but reserves three more slots in
   * every frame but kRefsAndArgs, x86 counts no fp registers.
   */
  function FrameSlots(isa: InstructionSet, t: CalleeSaveType): nat
  {
    var core := CoreSpills(isa, t);
    match isa
    case kMips => PopCount(core) + (if t == kRefsAndArgs then 0 else 3) + 1
    case kX86 => PopCount(core) + 1
    case _ => PopCount(core) + PopCount(FpSpills(isa, t)) + 1
  }

  function PointerSize(isa: InstructionSet): nat
  {
    match isa
    case kArm | kThumb2 => kArmPointerSize
    case kMips => kMipsPointerSize
    case kX86 => kX86PointerSize
    case kX86_64 => kX86_64PointerSize
    case kArm64 => kArm64PointerSize
    case kNone => 0
  }

  /** The frame size: the slots times the pointer size, rounded up to the stack alignment. */
  function FrameSize(isa: InstructionSet, t: CalleeSaveType): nat
  {
    RoundUp(FrameSlots(isa, t) * PointerSize(isa), kStackAlignment)
  }

  /** The frame of a callee-save method; None for an instruction set without one (a fatal error). */
  function CalleeSaveFrame(isa: InstructionSet, t: CalleeSaveType): (r: Option<Frame>)
    ensures r.None? <==> isa == kNone
  {
    if isa == kNone then None
    else Some(Frame(FrameSize(isa, t), CoreSpills(isa, t), FpSpills(isa, t)))
  }

  // ---------------------------------------------------------------------
  // What every frame satisfies.

  /**
   * Every frame is a multiple of the stack alignment and has room for each
   * spilled core and fp register and for the Method*.
   */
  lemma FrameHoldsSpills(isa: InstructionSet, t: CalleeSaveType)
    requires isa != kNone
    ensures var f := CalleeSaveFrame(isa, t).value;
            && f.frameSizeInBytes % kStackAlignment == 0
            && f.frameSizeInBytes >= (PopCount(f.coreSpillMask) + PopCount(f.fpSpillMask) + 1) * PointerSize(isa)
  {
    var f := CalleeSaveFrame(isa, t).value;
    assert f == Frame(FrameSize(isa, t), CoreSpills(isa, t), FpSpills(isa, t));
    var slots := PopCount(f.coreSpillMask) + PopCount(f.fpSpillMask) + 1;
    SlotsHoldSpills(isa, t);
    MulMonotone(slots, FrameSlots(isa, t), PointerSize(isa));
  }

  /** The slots count every spilled register and the Method*. */
  lemma SlotsHoldSpills(isa: InstructionSet, t: CalleeSaveType)
    requires isa != kNone
    ensures FrameSlots(isa, t) >= PopCount(CoreSpills(isa, t)) + PopCount(FpSpills(isa, t)) + 1
  {
    match isa
    case kMips | kX86 => PopCountZero();
    case _ =>
  }

  lemma MulMonotone(a: nat, b: nat, c: nat)
    requires a <= b
    ensures a * c <= b * c
  {
  }

  lemma PopCountZero()
    ensures PopCount(0) == 0
  {
    assert Registers(0) == {};
  }

  /**
   * kArm: the argument registers are spilled exactly in a kRefsAndArgs frame,
   * the reference registers and the return address in every frame. ARM and Thumb2 also spill R4 and R9 in kSaveAll; they spill S0-S31 in kSaveAll and no fp register otherwise.
   */
  lemma ArmSpillMasks(isa: InstructionSet, t: CalleeSaveType)
    requires isa == kArm || isa == kThumb2
    ensures var f := CalleeSaveFrame(isa, t).value;
            && f.coreSpillMask & ArgSpills(isa) == (if t == kRefsAndArgs then ArgSpills(isa) else 0)
            && f.coreSpillMask & RefSpills(isa) == RefSpills(isa)
            && f.coreSpillMask & AllSpills(isa) == (if t == kSaveAll then AllSpills(isa) else 0)
            && f.coreSpillMask & ReturnSpills(isa) == ReturnSpills(isa)
            && f.fpSpillMask == (if t == kSaveAll then 0xFFFF_FFFF else 0)
  {
  }

  /**
   * kMips: the argument registers are spilled exactly in a kRefsAndArgs frame,
   * the reference registers and the return address in every frame. MIPS also spills S0 and S1 in kSaveAll and spills no fp register.
   */
  lemma MipsSpillMasks(isa: InstructionSet, t: CalleeSaveType)
    requires isa == kMips
    ensures var f := CalleeSaveFrame(isa, t).value;
            && f.coreSpillMask & ArgSpills(isa) == (if t == kRefsAndArgs then ArgSpills(isa) else 0)
            && f.coreSpillMask & RefSpills(isa) == RefSpills(isa)
            && f.coreSpillMask & AllSpills(isa) == (if t == kSaveAll then AllSpills(isa) else 0)
            && f.coreSpillMask & ReturnSpills(isa) == ReturnSpills(isa)
            && f.fpSpillMask == 0
  {
  }

  /**
   * kX86: the argument registers are spilled exactly in a kRefsAndArgs frame,
   * the reference registers and the return address in every frame. x86 spills no fp register.
   */
  lemma X86SpillMasks(isa: InstructionSet, t: CalleeSaveType)
    requires isa == kX86
    ensures var f := CalleeSaveFrame(isa, t).value;
            && f.coreSpillMask & ArgSpills(isa) == (if t == kRefsAndArgs then ArgSpills(isa) else 0)
            && f.coreSpillMask & RefSpills(isa) == RefSpills(isa)
            && f.coreSpillMask & ReturnSpills(isa) == ReturnSpills(isa)
            && f.fpSpillMask == 0
  {
  }

  /**
   * kX86_64: the argument registers are spilled exactly in a kRefsAndArgs frame,
   * the reference registers and the return address in every frame. x86-64 spills XMM0-XMM7 exactly in kRefsAndArgs.
   */
  lemma X86_64SpillMasks(isa: InstructionSet, t: CalleeSaveType)
    requires isa == kX86_64
    ensures var f := CalleeSaveFrame(isa, t).value;
            && f.coreSpillMask & ArgSpills(isa) == (if t == kRefsAndArgs then ArgSpills(isa) else 0)
            && f.coreSpillMask & RefSpills(isa) == RefSpills(isa)
            && f.coreSpillMask & ReturnSpills(isa) == ReturnSpills(isa)
            && f.fpSpillMask == (if t == kRefsAndArgs then 0xFF else 0)
  {
  }

  /**
   * kArm64: the argument registers are spilled exactly in a kRefsAndArgs frame,
   * the reference registers and the return address in every frame. ARM64 always spills D8-D15, D0-D7 in kRefsAndArgs and kSaveAll, and D16-D31 only in kSaveAll.
   */
  lemma Arm64SpillMasks(isa: InstructionSet, t: CalleeSaveType)
    requires isa == kArm64
    ensures var f := CalleeSaveFrame(isa, t).value;
            && f.coreSpillMask & ArgSpills(isa) == (if t == kRefsAndArgs then ArgSpills(isa) else 0)
            && f.coreSpillMask & RefSpills(isa) == RefSpills(isa)
            && f.coreSpillMask & ReturnSpills(isa) == ReturnSpills(isa)
            && f.fpSpillMask == (if t == kSaveAll then 0xFFFF_FFFF else if t == kRefsAndArgs then 0xFFFF else 0xFF00)
  {
  }

}
