// Model of the 16-bit packed register descriptor of the quick compiler.
//
// Bit layout of reg_ (most significant first):
//   [V] [HHHHHH] [SSS] [F] [NNNNN]
//   V: valid bit (0x8000); H: high register of a pair (type and number);
//   S: shape (0x01c0); F: floating point (0x0020); N: register number (0x001f).
//
// The source's `int` parameters are stored into a uint16_t after masking and
// shifting; they are modelled as bv16, which is exactly the low sixteen bits
// that the stores keep.
module RegStorage {

  const kValidMask: bv16 := 0x8000
  const kValid: bv16 := 0x8000
  const kInvalid: bv16 := 0x0000
  const kShapeMask: bv16 := 0x01c0
  const k32BitSolo: bv16 := 0x0040
  const k64BitSolo: bv16 := 0x0080
  const k64BitPair: bv16 := 0x00c0
  const k128BitSolo: bv16 := 0x0100
  const k256BitSolo: bv16 := 0x0140
  const k512BitSolo: bv16 := 0x0180
  const k1024BitSolo: bv16 := 0x01c0
  const k64BitMask: bv16 := 0x0180
  const k64Bits: bv16 := 0x0080
  const kShapeTypeMask: bv16 := 0x01e0
  const kFloatingPoint: bv16 := 0x0020
  const kCoreRegister: bv16 := 0x0000

  const kRegValMask: bv16 := 0x01ff   // number, type and shape
  const kRegTypeMask: bv16 := 0x003f  // number and type
  const kRegNumMask: bv16 := 0x001f   // number only
  const kInvalidRegVal: bv16 := 0x01ff
  const kHighRegShift: bv16 := 9
  const kHighRegMask: bv16 := 0x7e00  // kRegTypeMask << kHighRegShift

  /** A shape the solo constructor accepts: only shape bits, and not a pair. */
  predicate IsSoloKind(kind: bv16)
  {
    kind & !kShapeMask == 0 && kind != k64BitPair
  }

  datatype RegStorage = RegStorage(reg_: bv16)
  {
    predicate Valid()
    {
      reg_ & kValidMask == kValid
    }

    predicate Is32Bit()
    {
      reg_ & kShapeMask == k32BitSolo
    }

    /** True exactly for the two 64-bit shapes, the solo and the pair. */
    predicate Is64Bit()
      ensures Is64Bit() <==> (Shape() == k64BitSolo || Shape() == k64BitPair)
    {
      reg_ & k64BitMask == k64Bits
    }

    predicate IsPair()
    {
      reg_ & kShapeMask == k64BitPair
    }

    function Shape(): bv16
    {
      reg_ & kShapeMask
    }

    predicate IsFloat()
      requires Valid()
    {
      reg_ & kFloatingPoint == kFloatingPoint
    }

    /** A double is a floating-point 64-bit value. */
    predicate IsDouble()
      requires Valid()
      ensures IsDouble() <==> IsFloat() && Is64Bit()
    {
      reg_ & (kFloatingPoint | k64BitMask) == (kFloatingPoint | k64Bits)
    }

    /** A single is a floating-point value whose shape is not 64-bit. */
    predicate IsSingle()
      requires Valid()
      ensures IsSingle() <==> IsFloat() && !Is64Bit() && reg_ & k64BitMask == 0
    {
      reg_ & (kFloatingPoint | k64BitMask) == kFloatingPoint
    }

    /**
     * The low register of a pair or the only register: shape, type and number,
     * or kInvalidRegVal for an invalid value.
     */
    function GetReg(): (r: bv16)
      requires !IsPair()
      ensures !Valid() ==> r == kInvalidRegVal
      ensures Valid() ==> r & !kRegValMask == 0 && r & kShapeMask == Shape()
                          && r & kRegTypeMask == reg_ & kRegTypeMask
    {
      if Valid() then reg_ & kRegValMask else kInvalidRegVal
    }

    /** The value SetReg stores: shape, type and number replaced, the rest kept. */
    function WithReg(reg: bv16): (r: RegStorage)
      requires Valid() && !IsPair()
      ensures reg & !kRegValMask == 0 ==>
                r.reg_ & !kRegValMask == reg_ & !kRegValMask && r.reg_ & kRegValMask == reg
      ensures reg & !kRegValMask == 0 && reg & kShapeMask != k64BitPair ==>
                r.Valid() && !r.IsPair() && r.GetReg() == reg
    {
      RegStorage((reg_ & !kRegValMask) | reg)
    }

    /** The value SetLowReg stores: only bits 0-5 change, the pair stays a pair. */
    function WithLowReg(reg: bv16): (r: RegStorage)
      requires IsPair()
      ensures r.reg_ & !kRegTypeMask == reg_ & !kRegTypeMask
      ensures r.IsPair() && r.Valid() == Valid()
      ensures r.GetLowReg() == (reg & kRegTypeMask) | k32BitSolo
      ensures r.GetHighReg() == GetHighReg()
    {
      var r := RegStorage((reg_ & !kRegTypeMask) | (reg & kRegTypeMask));
      assert r.IsPair();
      assert r.GetLowReg() == (reg & kRegTypeMask) | k32BitSolo;
      assert r.GetHighReg() == GetHighReg();
      r
    }

    /** The 32-bit solo view of the low register of a pair. */
    function GetLowReg(): (r: bv16)
      requires IsPair()
      ensures r & kShapeMask == k32BitSolo && r & !kRegValMask == 0
      ensures r & kRegTypeMask == reg_ & kRegTypeMask
    {
      (reg_ & kRegTypeMask) | k32BitSolo
    }

    function GetLow(): (r: RegStorage)
      requires IsPair()
      ensures r.Valid() && r.Is32Bit() && r.GetReg() == GetLowReg()
    {
      Solo(k32BitSolo, reg_ & kRegTypeMask)
    }

    /** The 32-bit solo view of the high register of a pair (bits 9-14). */
    function GetHighReg(): (r: bv16)
      requires IsPair()
      ensures r & kShapeMask == k32BitSolo && r & !kRegValMask == 0
      ensures r & kRegTypeMask == (reg_ & kHighRegMask) >> kHighRegShift
    {
      k32BitSolo | ((reg_ & kHighRegMask) >> kHighRegShift)
    }

    function GetHigh(): (r: RegStorage)
      requires IsPair()
      ensures r.Valid() && r.Is32Bit() && r.GetReg() == GetHighReg()
    {
      RegStorage(kValid | GetHighReg())
    }

    /** The value SetHighReg stores: only bits 9-14 change. */
    function WithHighReg(reg: bv16): (r: RegStorage)
      requires IsPair()
      ensures r.reg_ & !kHighRegMask == reg_ & !kHighRegMask
      ensures r.IsPair() && r.Valid() == Valid()
      ensures r.GetHighReg() == (reg & kRegTypeMask) | k32BitSolo
      ensures r.GetLowReg() == GetLowReg()
    {
      RegStorage((reg_ & !kHighRegMask) | ((reg & kRegTypeMask) << kHighRegShift))
    }

    /** The register number of the low or only register: the raw bits modulo 32. */
    function GetRegNum(): (r: bv16)
      ensures r < 32 && r == reg_ % 32
    {
      reg_ & kRegNumMask
    }

    /** The single-precision register aliasing the low half of this double. */
    function DoubleToLowSingle(): (r: RegStorage)
      requires Valid() && IsDouble()
      ensures r.Valid() && r.Is32Bit() && r.IsSingle()
      ensures r.GetRegNum() == (2 * GetRegNum()) % 32
    {
      FloatSolo32(GetRegNum() << 1)
    }

    /** The single-precision register aliasing the high half of this double. */
    function DoubleToHighSingle(): (r: RegStorage)
      requires Valid() && IsDouble()
      ensures r.Valid() && r.Is32Bit() && r.IsSingle()
      ensures r.GetRegNum() == (2 * GetRegNum() + 1) % 32
    {
      FloatSolo32((GetRegNum() << 1) + 1)
    }

    /** The double-precision register that this single is half of. */
    function SingleToDouble(): (r: RegStorage)
      requires Valid() && IsSingle()
      ensures r.Valid() && r.Shape() == k64BitSolo && r.IsDouble()
      ensures r.GetRegNum() == GetRegNum() / 2
    {
      FloatSolo64(GetRegNum() >> 1)
    }

    function GetRawBits(): bv16
    {
      reg_
    }

    /** Storage size in bytes: the shape's width in bits divided by eight. */
    function StorageSize(): (r: nat)
      ensures Shape() == kInvalid <==> r == 0
      ensures Is32Bit() ==> r == 4
      ensures Is64Bit() ==> r == 8
      ensures Shape() != kInvalid ==> 4 <= r <= 128 && 128 % r == 0
      ensures Shape() == k128BitSolo ==> r == 16
      ensures Shape() == k256BitSolo ==> r == 32
      ensures Shape() == k512BitSolo ==> r == 64
      ensures Shape() == k1024BitSolo ==> r == 128
    {
      var s := reg_ & kShapeMask;
      if s == kInvalid then 0
      else if s == k32BitSolo then 4
      else if s == k64BitSolo then 8
      else if s == k64BitPair then 8
      else if s == k128BitSolo then 16
      else if s == k256BitSolo then 32
      else if s == k512BitSolo then 64
      else 128
    }
  }

  /** The solo constructor: a valid value of shape kind holding reg's type and number. */
  function Solo(kind: bv16, reg: bv16): (r: RegStorage)
    requires IsSoloKind(kind)
    ensures r.Valid() && r.Shape() == kind && !r.IsPair()
    ensures r.reg_ & kRegTypeMask == reg & kRegTypeMask
    ensures r.reg_ & kHighRegMask == 0
  {
    RegStorage(kValid | kind | (reg & kRegTypeMask))
  }

  /** The pair constructor; both halves must agree on the floating-point bit. */
  function Pair(kind: bv16, lowReg: bv16, highReg: bv16): (r: RegStorage)
    requires kind == k64BitPair
    requires lowReg & kFloatingPoint == highReg & kFloatingPoint
    ensures r.Valid() && r.IsPair() && r.Is64Bit()
    ensures r.GetLowReg() == (lowReg & kRegTypeMask) | k32BitSolo
    ensures r.GetHighReg() == (highReg & kRegTypeMask) | k32BitSolo
  {
    RegStorage(kValid | kind | ((highReg & kRegTypeMask) << kHighRegShift) | (lowReg & kRegTypeMask))
  }

  /** Combines two 32-bit solos into a pair whose halves read back as the inputs. */
  function MakeRegPair(low: RegStorage, high: RegStorage): (r: RegStorage)
    requires !low.IsPair() && low.Is32Bit() && !high.IsPair() && high.Is32Bit()
    requires low.GetReg() & kFloatingPoint == high.GetReg() & kFloatingPoint
    ensures r.IsPair() && r.Valid()
    ensures low.Valid() ==> r.GetLowReg() == low.GetReg()
    ensures high.Valid() ==> r.GetHighReg() == high.GetReg()
  {
    Pair(k64BitPair, low.GetReg(), high.GetReg())
  }

  function Solo32(regNum: bv16): (r: RegStorage)
    ensures r.Valid() && r.Is32Bit() && r.GetReg() == k32BitSolo | (regNum & kRegTypeMask)
  {
    Solo(k32BitSolo, regNum & kRegTypeMask)
  }

  function FloatSolo32(regNum: bv16): (r: RegStorage)
    ensures r.Valid() && r.Is32Bit() && r.IsSingle()
    ensures r.GetRegNum() == regNum & kRegNumMask
  {
    Solo(k32BitSolo, (regNum & kRegNumMask) | kFloatingPoint)
  }

  function Solo64(regNum: bv16): (r: RegStorage)
    ensures r.Valid() && r.Shape() == k64BitSolo && r.Is64Bit() && !r.IsPair()
    ensures r.GetReg() == k64BitSolo | (regNum & kRegTypeMask)
  {
    Solo(k64BitSolo, regNum & kRegTypeMask)
  }

  function FloatSolo64(regNum: bv16): (r: RegStorage)
    ensures r.Valid() && r.Shape() == k64BitSolo && r.IsDouble()
    ensures r.GetRegNum() == regNum & kRegNumMask
  {
    Solo(k64BitSolo, (regNum & kRegNumMask) | kFloatingPoint)
  }

  /** The invalid value; also what the default constructor stores. */
  function InvalidReg(): (r: RegStorage)
    ensures !r.Valid() && r.Shape() == kInvalid && r.GetReg() == kInvalidRegVal
    ensures r.StorageSize() == 0
  {
    RegStorage(kInvalid)
  }

  /**
   * The register number held in raw register bits. The source masks an int
   * with 0x1f; on a two's-complement int that is the remainder modulo 32.
   */
  function RegNum(rawRegBits: int): (r: int)
    ensures 0 <= r < 32 && (rawRegBits - r) % 32 == 0
  {
    rawRegBits % 32
  }

  /** A floating-point 64-bit solo numbered n < 16 splits into singles 2n and 2n+1, and each maps back. */
  lemma DoubleSingleRoundTrip(n: bv16)
    requires n < 16
    ensures FloatSolo64(n).DoubleToLowSingle().GetRegNum() == 2 * n
    ensures FloatSolo64(n).DoubleToHighSingle().GetRegNum() == 2 * n + 1
    ensures FloatSolo64(n).DoubleToLowSingle().SingleToDouble() == FloatSolo64(n)
    ensures FloatSolo64(n).DoubleToHighSingle().SingleToDouble() == FloatSolo64(n)
  {
  }

  /** MakeRegPair of two valid 32-bit solos gives back the solos through GetLow and GetHigh. */
  lemma PairHalvesRoundTrip(lowNum: bv16, highNum: bv16)
    requires lowNum & kFloatingPoint == highNum & kFloatingPoint
    ensures MakeRegPair(Solo32(lowNum), Solo32(highNum)).GetLow() == Solo32(lowNum)
    ensures MakeRegPair(Solo32(lowNum), Solo32(highNum)).GetHigh() == Solo32(highNum)
  {
  }

  /**
   * A RegStorage variable: the three setters overwrite reg_ in place.
   */
  class RegStorageVar {
    var value: RegStorage

    /** The default constructor stores kInvalid. */
    constructor ()
      ensures value == InvalidReg()
    {
      value := InvalidReg();
    }

    /** Sets shape, type and number of a valid solo. */
    method SetReg(reg: bv16)
      requires value.Valid() && !value.IsPair()
      modifies this
      ensures value == old(value).WithReg(reg)
      ensures reg & !kRegValMask == 0 ==> value.reg_ & !kRegValMask == old(value.reg_) & !kRegValMask
    {
      value := value.WithReg(reg);
    }

    /** Sets the type and number of the low register; the value stays a pair. */
    method SetLowReg(reg: bv16)
      requires value.IsPair()
      modifies this
      ensures value == old(value).WithLowReg(reg)
      ensures value.reg_ & !kRegTypeMask == old(value.reg_) & !kRegTypeMask
    {
      value := value.WithLowReg(reg);
    }

    /** Sets the type and number of the high register; the value stays a pair. */
    method SetHighReg(reg: bv16)
      requires value.IsPair()
      modifies this
      ensures value == old(value).WithHighReg(reg)
      ensures value.reg_ & !kHighRegMask == old(value.reg_) & !kHighRegMask
    {
      value := value.WithHighReg(reg);
    }
  }
}
