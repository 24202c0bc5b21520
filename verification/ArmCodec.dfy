/** The immediate fields of ARM and Thumb instructions as the dynamic loader's relocator writes and reads them.

    A relocation field is a 32-bit word in little-endian memory; of a Thumb instruction the first halfword is
    the word's low half. Values are 32-bit two's complement. */
module ArmCodec {
  /** MOVW and MOVT stand for their ABS and PREL types, Abs32 and Rel32 for their NOI variants as well. */
  datatype RelocType =
    | Abs32 | Rel32 | Abs16 | Abs8
    | Pc24 | Call | Jump24
    | ThmCall | ThmJump24 | ThmJump11 | ThmJump8 | ThmJump6
    | ThmAbs5 | ThmPc8 | ThmPc12 | Abs12
    | Movw | Movt | ThmMovw | ThmMovt
    | LdrPcG0 | LdrsPcG0

  /** v >> 1, 2, 16, 24 and 25 on a signed int: the sign fills the bits left free. */
  function Asr1(v: bv32): bv32 { (v >> 1) | (if v >= 0x8000_0000 then 0x8000_0000 else 0) }

  function Asr2(v: bv32): bv32 { (v >> 2) | (if v >= 0x8000_0000 then 0xC000_0000 else 0) }

  function Asr16(v: bv32): bv32 { (v >> 16) | (if v >= 0x8000_0000 then 0xFFFF_0000 else 0) }

  function Asr24(v: bv32): bv32 { (v >> 24) | (if v >= 0x8000_0000 then 0xFFFF_FF00 else 0) }

  function Asr25(v: bv32): bv32 { (v >> 25) | (if v >= 0x8000_0000 then 0xFFFF_FF80 else 0) }

  /** abs, which leaves the most negative value alone. */
  function Abs(v: bv32): bv32 { if v >= 0x8000_0000 then 0 - v else v }

  /** The bit that says an offset is to be added. */
  function UpBit(v: bv32, bit: bv32): bv32 { if v >= 0x8000_0000 then 0 else bit }

  /** SIGN_EXTEND of a field whose sign bit is `sign`. */
  function SignExtend(field: bv32, sign: bv32): bv32 { field | (0 - (field & sign)) }

  function Thumb(symval: bv32): bool { symval & 1 == 1 }

  function IsBlx(field: bv32): bool { ((field >> 24) & 0xFE) == 0xFA }

  /** pack_result. */
  function PackResult(v: bv32, r: RelocType): bv32 {
    match r
    case Pc24 | Call | ThmCall | ThmJump24 | ThmJump11 | ThmJump8 | ThmJump6 => Asr1(v)
    case Jump24 | ThmAbs5 | ThmPc8 => Asr2(v)
    case Movt | ThmMovt => Asr16(v)
    case _ => v
  }

  /** mask_result. */
  function MaskResult(v: bv32, r: RelocType): bv32 {
    match r
    case Abs8 | ThmJump8 | ThmPc8 => v & 0xFF
    case Abs16 | Movw | Movt | ThmMovw | ThmMovt => v & 0xFFFF
    case Call | Pc24 | ThmCall | ThmJump24 => v & 0x01FF_FFFF
    case Jump24 => v & 0x00FF_FFFF
    case ThmJump11 => v & 0x7FF
    case ThmAbs5 => v & 0x1F
    case ThmJump6 => v & 0x3F
    case _ => v
  }

  /** rel_overflow. Its magnitudes are compared as signed numbers. */
  function Overflow(r: RelocType, v: bv32): bool {
    match r
    case Jump24 | Call | Pc24 => Asr25(v) != 0 && Asr25(v) != 0xFFFF_FFFF
    case ThmCall | ThmJump24 => Asr24(v) != 0 && Asr24(v) != 0xFFFF_FFFF
    case Abs12 | ThmPc12 => 0x1000 <= Abs(v) < 0x8000_0000
    case Abs16 => v + 32768 > 65535 + 32768
    case Abs8 => v + 128 > 255 + 128
    case _ => false
  }

  /** BL and BLX: a Thumb target turns BL into BLX, whose bit 24 is the value's bit 1. */
  function CallBase(w: bv32, symval: bv32): bv32 {
    (if Thumb(symval) then w | 0xF000_0000 else w) & 0xFF00_0000
  }

  function InsertCall(base: bv32, half: bv32, imm24: bv32): bv32 {
    (if IsBlx(base) then (base & 0xFEFF_FFFF) | (half << 24) else base) | imm24
  }

  function WriteCall(w: bv32, val: bv32, symval: bv32): bv32 {
    InsertCall(CallBase(w, symval), val & 1, val >> 1)
  }

  /** Before a branch to ARM code the value is made even, and the word a BLX. */
  function Evened(val: bv32, toArm: bool): bv32 { if toArm && val & 1 == 1 then val + 1 else val }

  function BranchBase(w: bv32, toArm: bool): bv32 { (if toArm then w & 0xEFFF_FFFF else w) & 0xD000_F800 }

  /** J1 and J2 of B.W, BL and BLX are I1 and I2 exclusive-or not S. */
  function Toggled(i: bv32, s: bv32): bv32 { (i ^ (s ^ 1)) & 1 }

  function BranchFields(s: bv32, j1: bv32, j2: bv32, imm10: bv32, imm11: bv32): bv32 {
    (s << 10) | imm10 | (j1 << 29) | (j2 << 27) | (imm11 << 16)
  }

  /** The fields of v, which is S:I1:I2:imm10:imm11. */
  function BranchBits(v: bv32): bv32 {
    BranchFields((v >> 23) & 1, Toggled(v >> 22, (v >> 23) & 1), Toggled(v >> 21, (v >> 23) & 1),
                 (v >> 11) & 0x3FF, v & 0x7FF)
  }

  function WriteThumbBranch(w: bv32, val: bv32, toArm: bool): bv32 {
    BranchBase(w, toArm) | BranchBits(Evened(val, toArm))
  }

  /** The word write_reloc_r leaves: the bits kept of w and the value in its places. */
  function Written(w: bv32, r: RelocType, val: bv32, symval: bv32): bv32 {
    match r
    case Abs32 | Rel32 => val
    case Abs16 => (w & 0xFFFF_0000) | (val & 0xFFFF)
    case Abs8 => (w & 0xFFFF_FF00) | (val & 0xFF)
    case Pc24 | Call => WriteCall(w, val, symval)
    case Jump24 => (w & 0xFF00_0000) | val
    case ThmCall => WriteThumbBranch(w, val, !Thumb(symval))
    case ThmJump24 => WriteThumbBranch(w, val, false)
    case ThmJump11 => (w & 0xFFFF_F800) | (val & 0xFFFF)
    case ThmJump8 => (w & 0xFFFF_FF00) | (val & 0xFFFF)
    case ThmJump6 => (w & 0xFFFF_FD07) | (((val >> 5) & 1) << 9) | ((val & 0x1F) << 3)
    case ThmAbs5 => (w & 0xFFFF_F83F) | ((val << 6) & 0xFFFF)
    case ThmPc8 => (w & 0xFFFF_FF00) | (val & 0xFFFF)
    case ThmPc12 =>
      (w & 0xF000_FF7F) | UpBit(val, 0x80) | ((Abs(val) & 0xFFF) << 16)
    case Abs12 | LdrPcG0 => (w & 0xFF7F_F000) | (Abs(val) & 0xFFF) | UpBit(val, 0x80_0000)
    case Movw | Movt => (w & 0xFFF0_F000) | (val & 0xFFF) | (((val >> 12) & 0xFF) << 16)
    case ThmMovw | ThmMovt =>
      (w & 0x8F00_FBF0) | (((val >> 11) & 1) << 10) | ((val >> 12) & 0xFF)
      | (((val >> 8) & 7) << 28) | ((val & 0xFF) << 16)
    case LdrsPcG0 =>
      (w & 0xFF7F_F0F0) | (((Abs(val) >> 4) & 0xF) << 8) | (Abs(val) & 0xF) | UpBit(val, 0x80_0000)
  }

  /** The bit of a branch offset that a BLX keeps in bit 24. */
  function HalfBit(w: bv32): bv32 { if IsBlx(w) then (w >> 24) & 1 else 0 }

  function ByteOffset(imm24: bv32, half: bv32): bv32 { ((imm24 << 1) + half) << 1 }

  function UnpackCall(w: bv32): bv32 {
    SignExtend(ByteOffset(w & 0xFF_FFFF, HalfBit(w)), 0x200_0000)
  }

  /** S:I1:I2:imm10:imm11. */
  function BranchJoined(s: bv32, j1: bv32, j2: bv32, imm10: bv32, imm11: bv32): bv32 {
    (s << 23) | (((j1 ^ s) ^ 1) << 22) | (((j2 ^ s) ^ 1) << 21) | (imm10 << 11) | imm11
  }

  function BranchValue(w: bv32): bv32 {
    BranchJoined((w >> 10) & 1, (w >> 29) & 1, (w >> 27) & 1, w & 0x3FF, (w >> 16) & 0x7FF)
  }

  function UnpackThumbBranch(w: bv32): bv32 { SignExtend(BranchValue(w) << 1, 0x100_0000) }

  function Signed(up: bv32, imm: bv32): bv32 { if up == 1 then imm else 0 - imm }

  /** rel_unpack_addend. */
  function Unpacked(w: bv32, r: RelocType): bv32 {
    match r
    case Abs32 => w
    case Rel32 => w
    case Abs16 => SignExtend(w & 0xFFFF, 0x8000)
    case Abs8 => SignExtend(w & 0xFF, 0x80)
    case Pc24 | Call | Jump24 => UnpackCall(w)
    case ThmCall | ThmJump24 => UnpackThumbBranch(w)
    case ThmJump11 => SignExtend((w & 0x7FF) << 1, 0x800)
    case ThmJump8 => SignExtend((w & 0xFF) << 1, 0x100)
    case ThmJump6 => (((((((w >> 9) & 1) << 5) | ((w >> 3) & 0x1F)) << 1) + 4) & 0x7F) - 4
    case ThmAbs5 => ((w >> 6) & 0x1F) << 2
    case ThmPc8 => ((((w & 0xFF) << 2) + 4) & 0x3FF) - 4
    case ThmPc12 => Signed((w >> 7) & 1, (w >> 16) & 0xFFF)
    case Abs12 | LdrPcG0 => Signed((w >> 23) & 1, w & 0xFFF)
    case Movw | Movt => SignExtend((((w >> 16) & 0xF) << 12) | (w & 0xFFF), 0x8000)
    case ThmMovw | ThmMovt =>
      SignExtend(((w & 0xF) << 12) | (((w >> 10) & 1) << 11) | (((w >> 28) & 7) << 8) | ((w >> 16) & 0xFF), 0x8000)
    case LdrsPcG0 => Signed((w >> 23) & 1, (((w >> 8) & 0xF) << 4) | (w & 0xF))
  }

  /** What reloc_do makes of the field for value v: pack, mask and write. */
  function Relocated(w: bv32, r: RelocType, v: bv32, symval: bv32): bv32 {
    Written(w, r, MaskResult(PackResult(v, r), r), symval)
  }

  /** v as a signed number needs no more than 26, 25, 16, 12, 9 or 8 bits. */
  predicate Signed26(v: bv32) { v >> 25 == 0 || v >> 25 == 0x7F }

  predicate Signed25(v: bv32) { v >> 24 == 0 || v >> 24 == 0xFF }

  predicate Signed16(v: bv32) { v >> 15 == 0 || v >> 15 == 0x1_FFFF }

  predicate Signed12(v: bv32) { v >> 11 == 0 || v >> 11 == 0x1F_FFFF }

  predicate Signed9(v: bv32) { v >> 8 == 0 || v >> 8 == 0xFF_FFFF }

  predicate Signed8(v: bv32) { v >> 7 == 0 || v >> 7 == 0x1FF_FFFF }

  /** v as a signed number is more than -2^12 and less than 2^12, or between -2^8 and 2^8. */
  predicate Within12(v: bv32) { v < 0x1000 || v > 0xFFFF_F000 }

  predicate Within8(v: bv32) { v < 0x100 || v > 0xFFFF_FF00 }

  /** A call in word w is a BLX once it is relocated: it was one, or its target is Thumb code and the word's
      bits 27 to 25 are those of BL. */
  predicate EndsAsBlx(w: bv32, symval: bv32) {
    if symval & 1 == 1 then (w >> 24) & 0x0E == 0x0A else (w >> 24) & 0xFE == 0xFA
  }

  /** The values that a field of type r in word w can hold. */
  predicate Fits(w: bv32, r: RelocType, v: bv32, symval: bv32) {
    match r
    case Abs32 | Rel32 => true
    case Abs16 | Movw | ThmMovw => Signed16(v)
    case Abs8 => Signed8(v)
    case Pc24 | Call => Signed26(v) && v & (if EndsAsBlx(w, symval) then 1 else 3) == 0
    case Jump24 => Signed26(v) && v & 3 == if w >> 24 == 0xFB then 2 else 0
    case ThmCall => Signed25(v) && v & (if symval & 1 == 1 then 1 else 3) == 0
    case ThmJump24 => Signed25(v) && v & 1 == 0
    case ThmJump11 => Signed12(v) && v & 1 == 0
    case ThmJump8 => Signed9(v) && v & 1 == 0
    case ThmJump6 => v + 4 < 0x80 && v & 1 == 0
    case ThmAbs5 => v < 0x80 && v & 3 == 0
    case ThmPc8 => v + 4 < 0x400 && v & 3 == 0
    case ThmPc12 | Abs12 | LdrPcG0 => Within12(v)
    case LdrsPcG0 => Within8(v)
    case Movt | ThmMovt => v == 0 || v == 0xFFFF_FFFF
  }

  /** The bits of the word that a relocation leaves as they are: a call may also get the condition of a BLX,
      and lose the half bit of one. */
  function Kept(w: bv32, r: RelocType, symval: bv32): bv32 {
    match r
    case Abs32 | Rel32 => 0
    case Abs16 => 0xFFFF_0000
    case Abs8 | ThmJump8 | ThmPc8 => 0xFFFF_FF00
    case Pc24 | Call => CallKept(w, symval)
    case Jump24 => 0xFF00_0000
    case ThmCall => if symval & 1 == 1 then 0xD000_F800 else 0xC000_F800
    case ThmJump24 => 0xD000_F800
    case ThmJump11 => 0xFFFF_F800
    case ThmJump6 => 0xFFFF_FD07
    case ThmAbs5 => 0xFFFF_F83F
    case ThmPc12 => 0xF000_FF7F
    case Abs12 | LdrPcG0 => 0xFF7F_F000
    case Movw | Movt => 0xFFF0_F000
    case ThmMovw | ThmMovt => 0x8F00_FBF0
    case LdrsPcG0 => 0xFF7F_F0F0
  }

  function CallKept(w: bv32, symval: bv32): bv32 {
    if symval & 1 == 1 then (if EndsAsBlx(w, symval) then 0x0E00_0000 else 0x0F00_0000)
    else if EndsAsBlx(w, symval) then 0xFE00_0000
    else 0xFF00_0000
  }
}
