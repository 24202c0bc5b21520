/** The word a relocation leaves, told position by position: what each field holds, in terms of the value, the
    symbol and the old word alone. Together with the bits that stay this fixes the word. */
module ArmEncodings {
  import opened ArmCodec
  import opened ArmRoundTrip
  import opened ArmKeeps

  predicate Imm8(x: bv32, i: bv32) { x & 0xFF == i & 0xFF }

  predicate Imm11(x: bv32, i: bv32) { x & 0x7FF == i & 0x7FF }

  predicate Imm16(x: bv32, i: bv32) { x & 0xFFFF == i & 0xFFFF }

  predicate Imm24(x: bv32, i: bv32) { x & 0xFF_FFFF == i & 0xFF_FFFF }

  predicate Imm5(x: bv32, i: bv32) { (x >> 6) & 0x1F == i & 0x1F }

  predicate Imm6(x: bv32, i: bv32) { (x >> 9) & 1 == (i >> 5) & 1 && (x >> 3) & 0x1F == i & 0x1F }

  predicate MovImm(x: bv32, h: bv32) { (x >> 16) & 0xF == (h >> 12) & 0xF && x & 0xFFF == h & 0xFFF }

  predicate ThumbMovImm(x: bv32, h: bv32) {
    && x & 0xF == (h >> 12) & 0xF && (x >> 10) & 1 == (h >> 11) & 1
    && (x >> 28) & 7 == (h >> 8) & 7 && (x >> 16) & 0xFF == h & 0xFF
  }

  /** The magnitude m of an offset, and the bit that is set if the offset is not negative. */
  predicate Offset12(x: bv32, m: bv32, negative: bool) {
    x & 0xFFF == m & 0xFFF && (x >> 23) & 1 == if negative then 0 else 1
  }

  predicate ThumbOffset12(x: bv32, m: bv32, negative: bool) {
    (x >> 16) & 0xFFF == m & 0xFFF && (x >> 7) & 1 == if negative then 0 else 1
  }

  predicate Offset8(x: bv32, m: bv32, negative: bool) {
    && (x >> 8) & 0xF == (m >> 4) & 0xF && x & 0xF == m & 0xF
    && (x >> 23) & 1 == if negative then 0 else 1
  }

  /** S is bit 24 of the branch's offset u; J1 and J2 are bits 23 and 22, each toggled if S is clear. */
  predicate ThumbBranch(x: bv32, u: bv32) {
    && (x >> 10) & 1 == (u >> 24) & 1
    && (x >> 29) & 1 == ((u >> 23) ^ (u >> 24) ^ 1) & 1
    && (x >> 27) & 1 == ((u >> 22) ^ (u >> 24) ^ 1) & 1
    && x & 0x3FF == (u >> 12) & 0x3FF && (x >> 16) & 0x7FF == (u >> 1) & 0x7FF
  }

  /** Branching to Thumb code sets the four top bits. A BL becomes a BLX that way, and the bit 24 of a BLX is
      bit 1 of the value. */
  predicate CallTop(w: bv32, v: bv32, thumb: bool, x: bv32) {
    if (w >> 24) & 0x0E == 0x0A && (thumb || w >> 28 == 0xF) then x >> 24 == 0xFA | ((v >> 1) & 1)
    else x >> 24 == (w >> 24) | (if thumb then 0xF0 else 0)
  }

  /** A branch to ARM code is a BLX: bit 28 is clear and the offset a multiple of 4, rounded up. */
  predicate ThumbCall(v: bv32, thumb: bool, x: bv32) {
    if thumb then ThumbBranch(x, v) else ThumbBranch(x, v + (v & 2)) && (x >> 28) & 1 == 0
  }

  function Magnitude(v: bv32): bv32 { if v >= 0x8000_0000 then 0 - v else v }

  predicate Encodes(w: bv32, r: RelocType, v: bv32, symval: bv32, x: bv32) {
    match r
    case Abs32 | Rel32 => x == v
    case Abs16 => Imm16(x, v)
    case Abs8 => Imm8(x, v)
    case Pc24 | Call => Imm24(x, v >> 2) && CallTop(w, v, symval & 1 == 1, x)
    case Jump24 => Imm24(x, v >> 2)
    case ThmCall => ThumbCall(v, symval & 1 == 1, x)
    case ThmJump24 => ThumbBranch(x, v)
    case ThmJump11 => Imm11(x, v >> 1)
    case ThmJump8 => Imm8(x, v >> 1)
    case ThmJump6 => Imm6(x, v >> 1)
    case ThmAbs5 => Imm5(x, v >> 2)
    case ThmPc8 => Imm8(x, v >> 2)
    case ThmPc12 => ThumbOffset12(x, Magnitude(v), v >= 0x8000_0000)
    case Abs12 | LdrPcG0 => Offset12(x, Magnitude(v), v >= 0x8000_0000)
    case LdrsPcG0 => Offset8(x, Magnitude(v), v >= 0x8000_0000)
    case Movw => MovImm(x, v)
    case Movt => MovImm(x, v >> 16)
    case ThmMovw => ThumbMovImm(x, v)
    case ThmMovt => ThumbMovImm(x, v >> 16)
  }

  lemma Imm8Laid(w: bv32, i: bv32, a: bv32, val: bv32, x: bv32)
    requires a & 0xFF == i & 0xFF && val == a & 0xFF
    requires x == (w & 0xFFFF_FF00) | (val & 0xFFFF) || x == (w & 0xFFFF_FF00) | (val & 0xFF)
    ensures Imm8(x, i)
  {
  }

  lemma Imm11Laid(w: bv32, i: bv32, a: bv32, val: bv32, x: bv32)
    requires a & 0x7FF == i & 0x7FF && val == a & 0x7FF && x == (w & 0xFFFF_F800) | (val & 0xFFFF)
    ensures Imm11(x, i)
  {
  }

  lemma Imm16Laid(w: bv32, i: bv32, val: bv32, x: bv32)
    requires val == i & 0xFFFF && x == (w & 0xFFFF_0000) | (val & 0xFFFF)
    ensures Imm16(x, i)
  {
  }

  lemma Imm24Laid(i: bv32, q: bv32, x: bv32)
    requires q == i & 0xFF_FFFF && x & 0xFF_FFFF == q
    ensures Imm24(x, i)
  {
  }

  lemma Imm5Laid(w: bv32, i: bv32, a: bv32, val: bv32, x: bv32)
    requires a & 0x1F == i & 0x1F && val == a & 0x1F && x == (w & 0xFFFF_F83F) | ((val << 6) & 0xFFFF)
    ensures Imm5(x, i)
  {
  }

  lemma Imm6Laid(w: bv32, i: bv32, a: bv32, val: bv32, x: bv32)
    requires a & 0x3F == i & 0x3F && val == a & 0x3F
    requires x == (w & 0xFFFF_FD07) | (((val >> 5) & 1) << 9) | ((val & 0x1F) << 3)
    ensures Imm6(x, i)
  {
  }

  lemma MovImmLaid(w: bv32, h: bv32, val: bv32, x: bv32)
    requires val == h & 0xFFFF && x == (w & 0xFFF0_F000) | (val & 0xFFF) | (((val >> 12) & 0xFF) << 16)
    ensures MovImm(x, h)
  {
  }

  lemma ThumbMovImmLaid(w: bv32, h: bv32, val: bv32, x: bv32)
    requires val == h & 0xFFFF
    requires x == (w & 0x8F00_FBF0) | (((val >> 11) & 1) << 10) | ((val >> 12) & 0xFF)
                  | (((val >> 8) & 7) << 28) | ((val & 0xFF) << 16)
    ensures ThumbMovImm(x, h)
  {
  }

  lemma Offset12Laid(w: bv32, m: bv32, negative: bool, x: bv32)
    requires x == (w & 0xFF7F_F000) | (m & 0xFFF) | (if negative then 0 else 0x80_0000)
    ensures Offset12(x, m, negative)
  {
  }

  lemma ThumbOffset12Laid(w: bv32, m: bv32, negative: bool, x: bv32)
    requires x == (w & 0xF000_FF7F) | (if negative then 0 else 0x80) | ((m & 0xFFF) << 16)
    ensures ThumbOffset12(x, m, negative)
  {
  }

  lemma Offset8Laid(w: bv32, m: bv32, negative: bool, x: bv32)
    requires x == (w & 0xFF7F_F0F0) | (((m >> 4) & 0xF) << 8) | (m & 0xF) | (if negative then 0 else 0x80_0000)
    ensures Offset8(x, m, negative)
  {
  }

  lemma MagnitudeIs(v: bv32)
    ensures Magnitude(v) == Abs(v)
    ensures UpBit(v, 0x80) == if v >= 0x8000_0000 then 0 else 0x80
    ensures UpBit(v, 0x80_0000) == if v >= 0x8000_0000 then 0 else 0x80_0000
  {
  }

  lemma UpperPacked(v: bv32, val: bv32)
    requires val == Asr16(v) & 0xFFFF
    ensures val == (v >> 16) & 0xFFFF
  {
    hide *;
    PackedHigh(v, val);
    UpperIsShort(v, v >> 16);
  }

  lemma UpperIsShort(v: bv32, h: bv32)
    requires h == v >> 16
    ensures h == h & 0xFFFF
  {
  }

  lemma Abs16Encoded(w: bv32, v: bv32, symval: bv32, val: bv32, x: bv32)
    requires val == MaskResult(PackResult(v, Abs16), Abs16) && x == Written(w, Abs16, val, symval)
    ensures Imm16(x, v)
  {
    hide Asr1, Asr2, Asr16, Imm16;
    Imm16Laid(w, v, val, x);
  }

  lemma Abs8Encoded(w: bv32, v: bv32, symval: bv32, val: bv32, x: bv32)
    requires val == MaskResult(PackResult(v, Abs8), Abs8) && x == Written(w, Abs8, val, symval)
    ensures Imm8(x, v)
  {
    hide Asr1, Asr2, Asr16, Imm8;
    Imm8Laid(w, v, v, val, x);
  }

  lemma ThmJump11Encoded(w: bv32, v: bv32, symval: bv32, val: bv32, x: bv32)
    requires val == MaskResult(PackResult(v, ThmJump11), ThmJump11) && x == Written(w, ThmJump11, val, symval)
    ensures Imm11(x, v >> 1)
  {
    hide Asr1, Asr2, Asr16, Imm11;
    Packed11(v);
    Imm11Laid(w, v >> 1, Asr1(v), val, x);
  }

  lemma ThmJump8Encoded(w: bv32, v: bv32, symval: bv32, val: bv32, x: bv32)
    requires val == MaskResult(PackResult(v, ThmJump8), ThmJump8) && x == Written(w, ThmJump8, val, symval)
    ensures Imm8(x, v >> 1)
  {
    hide Asr1, Asr2, Asr16, Imm8;
    Packed8(v);
    Imm8Laid(w, v >> 1, Asr1(v), val, x);
  }

  lemma ThmJump6Encoded(w: bv32, v: bv32, symval: bv32, val: bv32, x: bv32)
    requires val == MaskResult(PackResult(v, ThmJump6), ThmJump6) && x == Written(w, ThmJump6, val, symval)
    ensures Imm6(x, v >> 1)
  {
    hide Asr1, Asr2, Asr16, Imm6;
    Packed6(v);
    Imm6Laid(w, v >> 1, Asr1(v), val, x);
  }

  lemma ThmAbs5Encoded(w: bv32, v: bv32, symval: bv32, val: bv32, x: bv32)
    requires val == MaskResult(PackResult(v, ThmAbs5), ThmAbs5) && x == Written(w, ThmAbs5, val, symval)
    ensures Imm5(x, v >> 2)
  {
    hide Asr1, Asr2, Asr16, Imm5;
    Packed5(v);
    Imm5Laid(w, v >> 2, Asr2(v), val, x);
  }

  lemma ThmPc8Encoded(w: bv32, v: bv32, symval: bv32, val: bv32, x: bv32)
    requires val == MaskResult(PackResult(v, ThmPc8), ThmPc8) && x == Written(w, ThmPc8, val, symval)
    ensures Imm8(x, v >> 2)
  {
    hide Asr1, Asr2, Asr16, Imm8;
    PackedWords8(v);
    Imm8Laid(w, v >> 2, Asr2(v), val, x);
  }

  lemma MovwEncoded(w: bv32, v: bv32, symval: bv32, val: bv32, x: bv32)
    requires val == MaskResult(PackResult(v, Movw), Movw) && x == Written(w, Movw, val, symval)
    ensures MovImm(x, v)
  {
    hide Asr1, Asr2, Asr16, MovImm;
    MovImmLaid(w, v, val, x);
  }

  lemma MovtEncoded(w: bv32, v: bv32, symval: bv32, val: bv32, x: bv32)
    requires val == MaskResult(PackResult(v, Movt), Movt) && x == Written(w, Movt, val, symval)
    ensures MovImm(x, v >> 16)
  {
    hide *;
    MovtPacks(v, val);
    MovtWrites(w, symval, val, x);
    UpperPacked(v, val);
    MovImmLaid(w, v >> 16, val, x);
  }

  lemma ThmMovwEncoded(w: bv32, v: bv32, symval: bv32, val: bv32, x: bv32)
    requires val == MaskResult(PackResult(v, ThmMovw), ThmMovw) && x == Written(w, ThmMovw, val, symval)
    ensures ThumbMovImm(x, v)
  {
    hide Asr1, Asr2, Asr16, ThumbMovImm;
    ThumbMovImmLaid(w, v, val, x);
  }

  lemma ThmMovtEncoded(w: bv32, v: bv32, symval: bv32, val: bv32, x: bv32)
    requires val == MaskResult(PackResult(v, ThmMovt), ThmMovt) && x == Written(w, ThmMovt, val, symval)
    ensures ThumbMovImm(x, v >> 16)
  {
    hide *;
    ThmMovtPacks(v, val);
    ThmMovtWrites(w, symval, val, x);
    UpperPacked(v, val);
    ThumbMovImmLaid(w, v >> 16, val, x);
  }

  lemma Offset12Is(w: bv32, v: bv32, x: bv32)
    requires x == (w & 0xFF7F_F000) | (Abs(v) & 0xFFF) | UpBit(v, 0x80_0000)
    ensures Offset12(x, Magnitude(v), v >= 0x8000_0000)
  {
    hide *;
    MagnitudeIs(v);
    Offset12Laid(w, Magnitude(v), v >= 0x8000_0000, x);
  }

  lemma Abs12Writes(w: bv32, v: bv32, symval: bv32, val: bv32, x: bv32)
    requires val == MaskResult(PackResult(v, Abs12), Abs12) && x == Written(w, Abs12, val, symval)
    ensures x == (w & 0xFF7F_F000) | (Abs(v) & 0xFFF) | UpBit(v, 0x80_0000)
  {
    hide Asr1, Asr2, Asr16, Abs, UpBit;
  }

  lemma Abs12Encoded(w: bv32, v: bv32, symval: bv32, val: bv32, x: bv32)
    requires val == MaskResult(PackResult(v, Abs12), Abs12) && x == Written(w, Abs12, val, symval)
    ensures Offset12(x, Magnitude(v), v >= 0x8000_0000)
  {
    hide *;
    Abs12Writes(w, v, symval, val, x);
    Offset12Is(w, v, x);
  }

  lemma LdrPcG0Writes(w: bv32, v: bv32, symval: bv32, val: bv32, x: bv32)
    requires val == MaskResult(PackResult(v, LdrPcG0), LdrPcG0) && x == Written(w, LdrPcG0, val, symval)
    ensures x == (w & 0xFF7F_F000) | (Abs(v) & 0xFFF) | UpBit(v, 0x80_0000)
  {
    hide Asr1, Asr2, Asr16, Abs, UpBit;
  }

  lemma LdrPcG0Encoded(w: bv32, v: bv32, symval: bv32, val: bv32, x: bv32)
    requires val == MaskResult(PackResult(v, LdrPcG0), LdrPcG0) && x == Written(w, LdrPcG0, val, symval)
    ensures Offset12(x, Magnitude(v), v >= 0x8000_0000)
  {
    hide *;
    LdrPcG0Writes(w, v, symval, val, x);
    Offset12Is(w, v, x);
  }

  lemma Offset8Is(w: bv32, v: bv32, x: bv32)
    requires x == (w & 0xFF7F_F0F0) | (((Abs(v) >> 4) & 0xF) << 8) | (Abs(v) & 0xF) | UpBit(v, 0x80_0000)
    ensures Offset8(x, Magnitude(v), v >= 0x8000_0000)
  {
    hide *;
    MagnitudeIs(v);
    Offset8Laid(w, Magnitude(v), v >= 0x8000_0000, x);
  }

  lemma LdrsPcG0Writes(w: bv32, v: bv32, symval: bv32, val: bv32, x: bv32)
    requires val == MaskResult(PackResult(v, LdrsPcG0), LdrsPcG0) && x == Written(w, LdrsPcG0, val, symval)
    ensures x == (w & 0xFF7F_F0F0) | (((Abs(v) >> 4) & 0xF) << 8) | (Abs(v) & 0xF) | UpBit(v, 0x80_0000)
  {
    hide Asr1, Asr2, Asr16, Abs, UpBit;
  }

  lemma LdrsPcG0Encoded(w: bv32, v: bv32, symval: bv32, val: bv32, x: bv32)
    requires val == MaskResult(PackResult(v, LdrsPcG0), LdrsPcG0) && x == Written(w, LdrsPcG0, val, symval)
    ensures Offset8(x, Magnitude(v), v >= 0x8000_0000)
  {
    hide *;
    LdrsPcG0Writes(w, v, symval, val, x);
    Offset8Is(w, v, x);
  }

  lemma ThmPc12Encoded(w: bv32, v: bv32, symval: bv32, val: bv32, x: bv32)
    requires val == MaskResult(PackResult(v, ThmPc12), ThmPc12) && x == Written(w, ThmPc12, val, symval)
    ensures ThumbOffset12(x, Magnitude(v), v >= 0x8000_0000)
  {
    hide Abs, UpBit, Magnitude, ThumbOffset12;
    MagnitudeIs(v);
    ThumbOffset12Laid(w, Magnitude(v), v >= 0x8000_0000, x);
  }

  lemma Jump24Encoded(w: bv32, v: bv32, symval: bv32, val: bv32, x: bv32)
    requires val == MaskResult(PackResult(v, Jump24), Jump24) && x == Written(w, Jump24, val, symval)
    ensures Imm24(x, v >> 2)
  {
    hide Asr1, Asr2, Asr16, Imm24;
    JumpWord(w, v, val, x);
    Imm24Laid(v >> 2, val, x);
  }

  /** The offset u of a branch, halved, and the fields that hold it. */
  lemma BranchTells(q: bv32, u: bv32, s: bv32, j1: bv32, j2: bv32, i: bv32, k: bv32)
    requires q & 0xFF_FFFF == (u >> 1) & 0xFF_FFFF && s == (q >> 23) & 1
    requires j1 == Toggled(q >> 22, s) && j2 == Toggled(q >> 21, s) && i == (q >> 11) & 0x3FF && k == q & 0x7FF
    ensures s == (u >> 24) & 1 && i == (u >> 12) & 0x3FF && k == (u >> 1) & 0x7FF
    ensures j1 == ((u >> 23) ^ (u >> 24) ^ 1) & 1 && j2 == ((u >> 22) ^ (u >> 24) ^ 1) & 1
  {
  }

  lemma BranchHeld(u: bv32, s: bv32, j1: bv32, j2: bv32, i: bv32, k: bv32, x: bv32)
    requires s == (u >> 24) & 1 && i == (u >> 12) & 0x3FF && k == (u >> 1) & 0x7FF
    requires j1 == ((u >> 23) ^ (u >> 24) ^ 1) & 1 && j2 == ((u >> 22) ^ (u >> 24) ^ 1) & 1
    requires (x >> 10) & 1 == s && (x >> 29) & 1 == j1 && (x >> 27) & 1 == j2
    requires x & 0x3FF == i && (x >> 16) & 0x7FF == k
    ensures ThumbBranch(x, u)
  {
  }

  lemma ThumbBranchLaid(b: bv32, q: bv32, u: bv32, x: bv32)
    requires b & 0x2FFF_07FF == 0 && q & 0xFF_FFFF == (u >> 1) & 0xFF_FFFF && x == b | BranchBits(q)
    ensures ThumbBranch(x, u)
  {
    hide *;
    var s, i, k := (q >> 23) & 1, (q >> 11) & 0x3FF, q & 0x7FF;
    var j1, j2 := Toggled(q >> 22, s), Toggled(q >> 21, s);
    BranchForm(q, s, j1, j2, i, k);
    BranchParts(q, s, j1, j2, i, k);
    BranchLaid(b, s, j1, j2, i, k, x);
    BranchTells(q, u, s, j1, j2, i, k);
    BranchHeld(u, s, j1, j2, i, k, x);
  }

  lemma Halved(v: bv32, q: bv32)
    requires q == (v >> 1) & 0x01FF_FFFF
    ensures q & 0xFF_FFFF == (v >> 1) & 0xFF_FFFF
  {
  }

  lemma HalvedUp(v: bv32, p: bv32, q: bv32, u: bv32)
    requires p == (v >> 1) & 0x01FF_FFFF && q == (if p & 1 == 1 then p + 1 else p) && u == v + (v & 2)
    ensures q & 0xFF_FFFF == (u >> 1) & 0xFF_FFFF
  {
  }

  lemma ThmBranchEncoded(w: bv32, v: bv32, p: bv32, x: bv32)
    requires p == Asr1(v) & 0x01FF_FFFF && x == WriteThumbBranch(w, p, false)
    ensures ThumbBranch(x, v)
  {
    hide Asr1, BranchBase, BranchBits, ThumbBranch;
    Packed25(v);
    Halved(v, p);
    BranchBaseIsClear(w, false);
    ThumbBranchLaid(BranchBase(w, false), p, v, x);
  }

  lemma ThmJump24Packs(w: bv32, v: bv32, symval: bv32, val: bv32, x: bv32)
    requires val == MaskResult(PackResult(v, ThmJump24), ThmJump24) && x == Written(w, ThmJump24, val, symval)
    ensures val == Asr1(v) & 0x01FF_FFFF && x == WriteThumbBranch(w, val, false)
  {
    hide Asr1, WriteThumbBranch;
  }

  lemma ThmJump24Encoded(w: bv32, v: bv32, symval: bv32, val: bv32, x: bv32)
    requires val == MaskResult(PackResult(v, ThmJump24), ThmJump24) && x == Written(w, ThmJump24, val, symval)
    ensures ThumbBranch(x, v)
  {
    hide *;
    ThmJump24Packs(w, v, symval, val, x);
    ThmBranchEncoded(w, v, val, x);
  }

  lemma ArmBranchIsBlx(w: bv32, b: bv32, k: bv32, x: bv32)
    requires b == (w & 0xEFFF_FFFF) & 0xD000_F800 && k & 0xD000_F800 == 0 && x == b | k
    ensures (x >> 28) & 1 == 0
  {
  }

  lemma EvenedIs(w: bv32, p: bv32, q: bv32)
    requires q == if p & 1 == 1 then p + 1 else p
    ensures WriteThumbBranch(w, p, true) == BranchBase(w, true) | BranchBits(q)
  {
    hide BranchBase, BranchBits;
  }

  lemma ArmBranchLaid(w: bv32, b: bv32, q: bv32, x: bv32)
    requires b == BranchBase(w, true) && x == b | BranchBits(q)
    ensures b & 0x2FFF_07FF == 0 && (x >> 28) & 1 == 0
  {
    hide *;
    BranchBaseIs(w, true);
    BranchBaseIsClear(w, true);
    BranchBitsKept(q);
    ArmBranchIsBlx(w, b, BranchBits(q), x);
  }

  lemma ArmBranchTo(w: bv32, v: bv32, p: bv32, q: bv32, u: bv32, x: bv32)
    requires p == (v >> 1) & 0x01FF_FFFF && q == (if p & 1 == 1 then p + 1 else p) && u == v + (v & 2)
    requires x == BranchBase(w, true) | BranchBits(q)
    ensures ThumbBranch(x, u)
  {
    hide *;
    HalvedUp(v, p, q, u);
    BranchBaseIsClear(w, true);
    ThumbBranchLaid(BranchBase(w, true), q, u, x);
  }

  lemma ArmBranchEncoded(w: bv32, v: bv32, p: bv32, q: bv32, u: bv32, x: bv32)
    requires p == (v >> 1) & 0x01FF_FFFF && q == (if p & 1 == 1 then p + 1 else p) && u == v + (v & 2)
    requires x == WriteThumbBranch(w, p, true)
    ensures ThumbBranch(x, u) && (x >> 28) & 1 == 0
  {
    hide *;
    EvenedIs(w, p, q);
    ArmBranchTo(w, v, p, q, u, x);
    ArmBranchLaid(w, BranchBase(w, true), q, x);
  }

  lemma ThmCallEncoded(w: bv32, v: bv32, symval: bv32, val: bv32, x: bv32)
    requires val == MaskResult(PackResult(v, ThmCall), ThmCall) && x == Written(w, ThmCall, val, symval)
    ensures ThumbCall(v, symval & 1 == 1, x)
  {
    hide MaskResult, PackResult, Written, Asr1, WriteThumbBranch, ThumbBranch;
    ThmCallPacks(w, v, symval, val, x);
    if symval & 1 == 1 {
      ThmBranchEncoded(w, v, val, x);
    } else {
      Packed25(v);
      ArmBranchEncoded(w, v, val, if val & 1 == 1 then val + 1 else val, v + (v & 2), x);
    }
  }

  lemma BlTopLaid(w: bv32, v: bv32, thumb: bool, b: bv32, q: bv32, x: bv32)
    requires b == (if thumb then w | 0xF000_0000 else w) & 0xFF00_0000 && q & 0xFF00_0000 == 0
    requires (b >> 24) & 0xFE != 0xFA && x == b | q
    ensures x & 0xFF_FFFF == q && CallTop(w, v, thumb, x)
  {
  }

  lemma BlxTopLaid(w: bv32, v: bv32, thumb: bool, b: bv32, h: bv32, q: bv32, x: bv32)
    requires b == (if thumb then w | 0xF000_0000 else w) & 0xFF00_0000 && h == (v >> 1) & 1 && q & 0xFF00_0000 == 0
    requires (b >> 24) & 0xFE == 0xFA && x == ((b & 0xFEFF_FFFF) | (h << 24)) | q
    ensures x & 0xFF_FFFF == q && CallTop(w, v, thumb, x)
  {
  }

  lemma CallBaseIs(w: bv32, symval: bv32)
    ensures CallBase(w, symval) == (if symval & 1 == 1 then w | 0xF000_0000 else w) & 0xFF00_0000
  {
  }

  lemma BlxBits(b: bv32, blx: bool)
    requires blx <==> IsBlx(b)
    ensures blx <==> (b >> 24) & 0xFE == 0xFA
  {
  }

  lemma CallFilled(w: bv32, v: bv32, thumb: bool, b: bv32, h: bv32, q: bv32, x: bv32)
    requires b == (if thumb then w | 0xF000_0000 else w) & 0xFF00_0000 && h == (v >> 1) & 1 && q & 0xFF00_0000 == 0
    requires x == InsertCall(b, h, q)
    ensures x & 0xFF_FFFF == q && CallTop(w, v, thumb, x)
  {
    hide *;
    BlxBits(b, IsBlx(b));
    if IsBlx(b) {
      BlxInserted(b, h, q);
      BlxTopLaid(w, v, thumb, b, h, q, x);
    } else {
      BlInserted(b, h, q);
      BlTopLaid(w, v, thumb, b, q, x);
    }
  }

  lemma CallSet(w: bv32, v: bv32, symval: bv32, h: bv32, q: bv32, x: bv32)
    requires q == (v >> 2) & 0xFF_FFFF && h == (v >> 1) & 1 && q & 0xFF00_0000 == 0
    requires x == InsertCall(CallBase(w, symval), h, q)
    ensures Imm24(x, v >> 2) && CallTop(w, v, symval & 1 == 1, x)
  {
    hide *;
    CallBaseIs(w, symval);
    CallFilled(w, v, symval & 1 == 1, CallBase(w, symval), h, q, x);
    Imm24Laid(v >> 2, q, x);
  }

  lemma CallLaid(w: bv32, v: bv32, p: bv32, symval: bv32, x: bv32)
    requires p == Asr1(v) & 0x01FF_FFFF && x == WriteCall(w, p, symval)
    ensures Imm24(x, v >> 2) && CallTop(w, v, symval & 1 == 1, x)
  {
    hide *;
    CallIs(w, p, symval);
    CallParts(v, p, p >> 1, p & 1);
    CallSet(w, v, symval, p & 1, p >> 1, x);
  }

  lemma CallPacks(w: bv32, r: RelocType, v: bv32, symval: bv32, val: bv32, x: bv32)
    requires r.Call? || r.Pc24?
    requires val == MaskResult(PackResult(v, r), r) && x == Written(w, r, val, symval)
    ensures val == Asr1(v) & 0x01FF_FFFF && x == WriteCall(w, val, symval)
  {
    hide Asr1, WriteCall;
  }

  lemma CallEncoded(w: bv32, r: RelocType, v: bv32, symval: bv32, val: bv32, x: bv32)
    requires r.Call? || r.Pc24?
    requires val == MaskResult(PackResult(v, r), r) && x == Written(w, r, val, symval)
    ensures Imm24(x, v >> 2) && CallTop(w, v, symval & 1 == 1, x)
  {
    hide *;
    CallPacks(w, r, v, symval, val, x);
    CallLaid(w, v, val, symval, x);
  }

  lemma WordEncoded(w: bv32, r: RelocType, v: bv32, symval: bv32, val: bv32, x: bv32)
    requires r.Abs32? || r.Rel32?
    requires val == MaskResult(PackResult(v, r), r) && x == Written(w, r, val, symval)
    ensures x == v
  {
  }

  lemma ArmEncoded(w: bv32, r: RelocType, v: bv32, symval: bv32, val: bv32, x: bv32)
    requires val == MaskResult(PackResult(v, r), r) && x == Written(w, r, val, symval)
    requires r in {Abs16, Abs8, Pc24, Call, Jump24, Abs12, LdrPcG0, LdrsPcG0, Movw, Movt}
    ensures Encodes(w, r, v, symval, x)
  {
    hide MaskResult, PackResult, Written, Magnitude, Imm8, Imm11, Imm16, Imm24, Imm5, Imm6, MovImm, ThumbMovImm;
    hide Offset12, ThumbOffset12, Offset8, ThumbBranch, ThumbCall, CallTop;
    match r
    case Abs16 => Abs16Encoded(w, v, symval, val, x);
    case Abs8 => Abs8Encoded(w, v, symval, val, x);
    case Pc24 | Call => CallEncoded(w, r, v, symval, val, x);
    case Jump24 => Jump24Encoded(w, v, symval, val, x);
    case Abs12 => Abs12Encoded(w, v, symval, val, x);
    case LdrPcG0 => LdrPcG0Encoded(w, v, symval, val, x);
    case LdrsPcG0 => LdrsPcG0Encoded(w, v, symval, val, x);
    case Movw => MovwEncoded(w, v, symval, val, x);
    case Movt => MovtEncoded(w, v, symval, val, x);
  }

  lemma ThumbEncoded(w: bv32, r: RelocType, v: bv32, symval: bv32, val: bv32, x: bv32)
    requires val == MaskResult(PackResult(v, r), r) && x == Written(w, r, val, symval)
    requires r in {ThmCall, ThmJump24, ThmJump11, ThmJump8, ThmJump6, ThmAbs5, ThmPc8, ThmPc12, ThmMovw, ThmMovt}
    ensures Encodes(w, r, v, symval, x)
  {
    hide MaskResult, PackResult, Written, Magnitude, Imm8, Imm11, Imm16, Imm24, Imm5, Imm6, MovImm, ThumbMovImm;
    hide Offset12, ThumbOffset12, Offset8, ThumbBranch, ThumbCall, CallTop;
    match r
    case ThmCall => ThmCallEncoded(w, v, symval, val, x);
    case ThmJump24 => ThmJump24Encoded(w, v, symval, val, x);
    case ThmJump11 => ThmJump11Encoded(w, v, symval, val, x);
    case ThmJump8 => ThmJump8Encoded(w, v, symval, val, x);
    case ThmJump6 => ThmJump6Encoded(w, v, symval, val, x);
    case ThmAbs5 => ThmAbs5Encoded(w, v, symval, val, x);
    case ThmPc8 => ThmPc8Encoded(w, v, symval, val, x);
    case ThmPc12 => ThmPc12Encoded(w, v, symval, val, x);
    case ThmMovw => ThmMovwEncoded(w, v, symval, val, x);
    case ThmMovt => ThmMovtEncoded(w, v, symval, val, x);
  }

  lemma AllEncoded(w: bv32, r: RelocType, v: bv32, symval: bv32, val: bv32, x: bv32)
    requires val == MaskResult(PackResult(v, r), r) && x == Written(w, r, val, symval)
    ensures Encodes(w, r, v, symval, x)
  {
    hide *;
    match r
    case Abs32 | Rel32 =>
      WordEncoded(w, r, v, symval, val, x);
      WordHolds(w, r, v, symval, x);
    case Abs16 | Abs8 | Pc24 | Call | Jump24 | Abs12 | LdrPcG0 | LdrsPcG0 | Movw | Movt =>
      ArmEncoded(w, r, v, symval, val, x);
    case _ => ThumbEncoded(w, r, v, symval, val, x);
  }

  lemma WordHolds(w: bv32, r: RelocType, v: bv32, symval: bv32, x: bv32)
    requires r.Abs32? || r.Rel32?
    ensures Encodes(w, r, v, symval, x) <==> x == v
  {
  }

  /** Every field of the relocated word holds what its encoding says. */
  lemma Encoded(w: bv32, r: RelocType, v: bv32, symval: bv32)
    ensures Encodes(w, r, v, symval, Relocated(w, r, v, symval))
  {
    hide MaskResult, PackResult, Written, Encodes;
    var val := MaskResult(PackResult(v, r), r);
    AllEncoded(w, r, v, symval, val, Written(w, r, val, symval));
  }

  lemma SameCalls(w: bv32, v: bv32, thumb: bool, i: bv32, x: bv32, y: bv32)
    requires Imm24(x, i) && CallTop(w, v, thumb, x) && Imm24(y, i) && CallTop(w, v, thumb, y)
    ensures x == y
  {
    hide CallTop;
    SameTops(w, v, thumb, x, y);
  }

  lemma SameTops(w: bv32, v: bv32, thumb: bool, x: bv32, y: bv32)
    requires CallTop(w, v, thumb, x) && CallTop(w, v, thumb, y)
    ensures x >> 24 == y >> 24
  {
  }

  lemma SameThumbCalls(v: bv32, thumb: bool, x: bv32, y: bv32)
    requires ThumbCall(v, thumb, x) && ThumbCall(v, thumb, y)
    requires Agrees(x, y, if thumb then 0xD000_F800 else 0xC000_F800)
    ensures x == y
  {
    hide ThumbBranch, Agrees;
    if thumb {
      SameThumbJumps(x, y, v);
    } else {
      SameThumbBranches(v + (v & 2), x, y);
      OneBitMore(x, y);
    }
  }

  lemma OneBitMore(x: bv32, y: bv32)
    requires x & 0x2FFF_07FF == y & 0x2FFF_07FF && Agrees(x, y, 0xC000_F800) && (x >> 28) & 1 == (y >> 28) & 1
    ensures x == y
  {
  }

  lemma SameThumbBranches(u: bv32, x: bv32, y: bv32)
    requires ThumbBranch(x, u) && ThumbBranch(y, u)
    ensures x & 0x2FFF_07FF == y & 0x2FFF_07FF
  {
  }

  lemma SameImm8(x: bv32, y: bv32, i: bv32)
    requires Imm8(x, i) && Imm8(y, i) && Agrees(x, y, 0xFFFF_FF00)
    ensures x == y
  {
  }

  lemma SameImm11(x: bv32, y: bv32, i: bv32)
    requires Imm11(x, i) && Imm11(y, i) && Agrees(x, y, 0xFFFF_F800)
    ensures x == y
  {
  }

  lemma SameImm16(x: bv32, y: bv32, i: bv32)
    requires Imm16(x, i) && Imm16(y, i) && Agrees(x, y, 0xFFFF_0000)
    ensures x == y
  {
  }

  lemma SameImm24(x: bv32, y: bv32, i: bv32)
    requires Imm24(x, i) && Imm24(y, i) && Agrees(x, y, 0xFF00_0000)
    ensures x == y
  {
  }

  lemma SameImm5(x: bv32, y: bv32, i: bv32)
    requires Imm5(x, i) && Imm5(y, i) && Agrees(x, y, 0xFFFF_F83F)
    ensures x == y
  {
  }

  lemma SameImm6(x: bv32, y: bv32, i: bv32)
    requires Imm6(x, i) && Imm6(y, i) && Agrees(x, y, 0xFFFF_FD07)
    ensures x == y
  {
  }

  lemma SameMovImm(x: bv32, y: bv32, h: bv32)
    requires MovImm(x, h) && MovImm(y, h) && Agrees(x, y, 0xFFF0_F000)
    ensures x == y
  {
  }

  lemma SameThumbMovImm(x: bv32, y: bv32, h: bv32)
    requires ThumbMovImm(x, h) && ThumbMovImm(y, h) && Agrees(x, y, 0x8F00_FBF0)
    ensures x == y
  {
  }

  lemma SameOffset12(x: bv32, y: bv32, m: bv32, negative: bool)
    requires Offset12(x, m, negative) && Offset12(y, m, negative) && Agrees(x, y, 0xFF7F_F000)
    ensures x == y
  {
  }

  lemma SameThumbOffset12(x: bv32, y: bv32, m: bv32, negative: bool)
    requires ThumbOffset12(x, m, negative) && ThumbOffset12(y, m, negative) && Agrees(x, y, 0xF000_FF7F)
    ensures x == y
  {
  }

  lemma SameOffset8(x: bv32, y: bv32, m: bv32, negative: bool)
    requires Offset8(x, m, negative) && Offset8(y, m, negative) && Agrees(x, y, 0xFF7F_F0F0)
    ensures x == y
  {
  }

  lemma SameThumbJumps(x: bv32, y: bv32, u: bv32)
    requires ThumbBranch(x, u) && ThumbBranch(y, u) && Agrees(x, y, 0xD000_F800)
    ensures x == y
  {
    hide ThumbBranch, Agrees;
    SameThumbBranches(u, x, y);
    AllBits(x, y);
  }

  lemma AllBits(x: bv32, y: bv32)
    requires x & 0x2FFF_07FF == y & 0x2FFF_07FF && Agrees(x, y, 0xD000_F800)
    ensures x == y
  {
  }

  lemma ArmHolds(w: bv32, v: bv32, symval: bv32, x: bv32)
    ensures Encodes(w, Abs16, v, symval, x) <==> Imm16(x, v)
    ensures Encodes(w, Abs8, v, symval, x) <==> Imm8(x, v)
    ensures Encodes(w, Jump24, v, symval, x) <==> Imm24(x, v >> 2)
    ensures Encodes(w, Movw, v, symval, x) <==> MovImm(x, v)
    ensures Encodes(w, Movt, v, symval, x) <==> MovImm(x, v >> 16)
  {
    hide Imm8, Imm16, Imm24, MovImm;
  }

  lemma ArmKept(w: bv32, symval: bv32)
    ensures Kept(w, Abs16, symval) == 0xFFFF_0000 && Kept(w, Abs8, symval) == 0xFFFF_FF00
    ensures Kept(w, Jump24, symval) == 0xFF00_0000
    ensures Kept(w, Movw, symval) == 0xFFF0_F000 && Kept(w, Movt, symval) == 0xFFF0_F000
  {
  }

  lemma SameArmWord(w: bv32, r: RelocType, v: bv32, symval: bv32, x: bv32, y: bv32)
    requires r in {Abs16, Abs8, Jump24, Movw, Movt}
    requires Encodes(w, r, v, symval, x) && Encodes(w, r, v, symval, y) && Agrees(x, y, Kept(w, r, symval))
    ensures x == y
  {
    hide *;
    ArmHolds(w, v, symval, x);
    ArmHolds(w, v, symval, y);
    ArmKept(w, symval);
    match r
    case Abs16 => SameImm16(x, y, v);
    case Abs8 => SameImm8(x, y, v);
    case Jump24 => SameImm24(x, y, v >> 2);
    case Movw => SameMovImm(x, y, v);
    case Movt => SameMovImm(x, y, v >> 16);
  }

  lemma SameLoad(w: bv32, r: RelocType, v: bv32, symval: bv32, x: bv32, y: bv32)
    requires r in {Abs12, LdrPcG0, LdrsPcG0}
    requires Encodes(w, r, v, symval, x) && Encodes(w, r, v, symval, y) && Agrees(x, y, Kept(w, r, symval))
    ensures x == y
  {
    hide Magnitude, Offset12, Offset8, Agrees;
    match r
    case Abs12 | LdrPcG0 => SameOffset12(x, y, Magnitude(v), v >= 0x8000_0000);
    case LdrsPcG0 => SameOffset8(x, y, Magnitude(v), v >= 0x8000_0000);
  }

  lemma SameThumbWord(w: bv32, r: RelocType, v: bv32, symval: bv32, x: bv32, y: bv32)
    requires r in {ThmCall, ThmJump24, ThmJump11, ThmJump8, ThmJump6, ThmAbs5, ThmPc8, ThmPc12, ThmMovw, ThmMovt}
    requires Encodes(w, r, v, symval, x) && Encodes(w, r, v, symval, y) && Agrees(x, y, Kept(w, r, symval))
    ensures x == y
  {
    hide Magnitude, Imm8, Imm11, Imm16, Imm24, Imm5, Imm6, MovImm, ThumbMovImm;
    hide Offset12, ThumbOffset12, Offset8, ThumbBranch, ThumbCall, CallTop, CallKept, Agrees;
    match r
    case ThmCall => SameThumbCalls(v, symval & 1 == 1, x, y);
    case ThmJump24 => SameThumbJumps(x, y, v);
    case ThmJump11 => SameImm11(x, y, v >> 1);
    case ThmJump8 => SameImm8(x, y, v >> 1);
    case ThmJump6 => SameImm6(x, y, v >> 1);
    case ThmAbs5 => SameImm5(x, y, v >> 2);
    case ThmPc8 => SameImm8(x, y, v >> 2);
    case ThmPc12 => SameThumbOffset12(x, y, Magnitude(v), v >= 0x8000_0000);
    case ThmMovw => SameThumbMovImm(x, y, v);
    case ThmMovt => SameThumbMovImm(x, y, v >> 16);
  }

  /** What a field holds and the bits that stay leave no choice for the word. */
  lemma SameWord(w: bv32, r: RelocType, v: bv32, symval: bv32, x: bv32, y: bv32)
    requires Encodes(w, r, v, symval, x) && Encodes(w, r, v, symval, y) && Agrees(x, y, Kept(w, r, symval))
    ensures x == y
  {
    hide *;
    match r
    case Abs32 | Rel32 =>
      WordHolds(w, r, v, symval, x);
      WordHolds(w, r, v, symval, y);
    case Pc24 | Call =>
      CallHolds(w, r, v, symval, x);
      CallHolds(w, r, v, symval, y);
      SameCalls(w, v, symval & 1 == 1, v >> 2, x, y);
    case Abs12 | LdrPcG0 | LdrsPcG0 => SameLoad(w, r, v, symval, x, y);
    case Abs16 | Abs8 | Jump24 | Movw | Movt => SameArmWord(w, r, v, symval, x, y);
    case _ => SameThumbWord(w, r, v, symval, x, y);
  }

  /** The relocated word is the one word whose field holds the value as encoded and whose other bits are those
      of the old word. */
  lemma RelocatedExactly(w: bv32, r: RelocType, v: bv32, symval: bv32, x: bv32)
    ensures x == Relocated(w, r, v, symval)
       <==> Encodes(w, r, v, symval, x) && Agrees(w, x, Kept(w, r, symval))
  {
    hide *;
    var y := Relocated(w, r, v, symval);
    Encoded(w, r, v, symval);
    KeepsOtherBits(w, r, v, symval);
    if Encodes(w, r, v, symval, x) && Agrees(w, x, Kept(w, r, symval)) {
      AgreeToo(w, x, y, Kept(w, r, symval));
      SameWord(w, r, v, symval, x, y);
    }
  }

  lemma TopOf(w: bv32, v: bv32, thumb: bool, x: bv32)
    requires CallTop(w, v, thumb, x)
    ensures thumb ==> x >> 28 == 0xF
    ensures thumb && w >> 24 == 0xEB ==> x >> 24 == 0xFA + ((v >> 1) & 1)
    ensures !thumb && w >> 25 != 0x7D ==> x >> 24 == w >> 24
  {
  }

  lemma CallHolds(w: bv32, r: RelocType, v: bv32, symval: bv32, x: bv32)
    requires r.Call? || r.Pc24?
    ensures Encodes(w, r, v, symval, x) <==> Imm24(x, v >> 2) && CallTop(w, v, symval & 1 == 1, x)
  {
    hide Imm24, CallTop;
  }

  lemma Imm24Is(x: bv32, i: bv32)
    requires Imm24(x, i)
    ensures x & 0xFF_FFFF == i & 0xFF_FFFF
  {
  }

  /** Branching from ARM code. A call of Thumb code is unconditional, and a BL always becomes a BLX whose bit 24
      is the value's bit 1; on the way to ARM code the top byte stays, unless the word is a BLX. */
  lemma CallConverted(w: bv32, r: RelocType, v: bv32, symval: bv32)
    requires r.Call? || r.Pc24?
    ensures Relocated(w, r, v, symval) & 0xFF_FFFF == (v >> 2) & 0xFF_FFFF
    ensures symval & 1 == 1 ==> Relocated(w, r, v, symval) >> 28 == 0xF
    ensures symval & 1 == 1 && w >> 24 == 0xEB ==> Relocated(w, r, v, symval) >> 24 == 0xFA + ((v >> 1) & 1)
    ensures symval & 1 != 1 && w >> 25 != 0x7D ==> Relocated(w, r, v, symval) >> 24 == w >> 24
  {
    hide *;
    var x := Relocated(w, r, v, symval);
    Encoded(w, r, v, symval);
    CallHolds(w, r, v, symval, x);
    Imm24Is(x, v >> 2);
    TopOf(w, v, symval & 1 == 1, x);
  }

  lemma ModeBit(w: bv32, x: bv32)
    requires Agrees(w, x, 0xD000_F800)
    ensures (x >> 28) & 1 == (w >> 28) & 1
  {
  }

  /** Branching from Thumb code: bit 28, clear in a BLX only, is cleared exactly on the way to ARM code. */
  lemma ThumbCallConverted(w: bv32, v: bv32, symval: bv32)
    ensures (Relocated(w, ThmCall, v, symval) >> 28) & 1 == if symval & 1 == 1 then (w >> 28) & 1 else 0
  {
    hide Relocated, ThumbBranch, Agrees;
    Encoded(w, ThmCall, v, symval);
    KeepsOtherBits(w, ThmCall, v, symval);
    if symval & 1 == 1 { ModeBit(w, Relocated(w, ThmCall, v, symval)); }
  }

  lemma AgreeToo(w: bv32, x: bv32, y: bv32, kept: bv32)
    requires Agrees(w, x, kept) && Agrees(w, y, kept)
    ensures Agrees(x, y, kept)
  {
  }
}
