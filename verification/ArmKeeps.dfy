/** A relocation changes the bits of its field only. */
module ArmKeeps {
  import opened ArmCodec
  import opened ArmRoundTrip

  lemma Abs16Bits(w: bv32, x: bv32, val: bv32, w': bv32)
    requires val == x & 0xFFFF
    requires w' == (w & 0xFFFF_0000) | (val & 0xFFFF)
    ensures Agrees(w, w', 0xFFFF_0000)
  {
  }

  lemma Abs8Bits(w: bv32, x: bv32, val: bv32, w': bv32)
    requires val == x & 0xFF
    requires w' == (w & 0xFFFF_FF00) | (val & 0xFF)
    ensures Agrees(w, w', 0xFFFF_FF00)
  {
  }

  lemma Jump24Bits(w: bv32, x: bv32, val: bv32, w': bv32)
    requires val == x & 0x00FF_FFFF
    requires w' == (w & 0xFF00_0000) | val
    ensures Agrees(w, w', 0xFF00_0000)
  {
  }

  lemma ThmJump11Bits(w: bv32, x: bv32, val: bv32, w': bv32)
    requires val == x & 0x7FF
    requires w' == (w & 0xFFFF_F800) | (val & 0xFFFF)
    ensures Agrees(w, w', 0xFFFF_F800)
  {
  }

  lemma ThmJump8Bits(w: bv32, x: bv32, val: bv32, w': bv32)
    requires val == x & 0xFF
    requires w' == (w & 0xFFFF_FF00) | (val & 0xFFFF)
    ensures Agrees(w, w', 0xFFFF_FF00)
  {
  }

  lemma ThmJump6Bits(w: bv32, x: bv32, val: bv32, w': bv32)
    requires val == x & 0x3F
    requires w' == (w & 0xFFFF_FD07) | (((val >> 5) & 1) << 9) | ((val & 0x1F) << 3)
    ensures Agrees(w, w', 0xFFFF_FD07)
  {
  }

  lemma ThmAbs5Bits(w: bv32, x: bv32, val: bv32, w': bv32)
    requires val == x & 0x1F
    requires w' == (w & 0xFFFF_F83F) | ((val << 6) & 0xFFFF)
    ensures Agrees(w, w', 0xFFFF_F83F)
  {
  }

  lemma ThmPc8Bits(w: bv32, x: bv32, val: bv32, w': bv32)
    requires val == x & 0xFF
    requires w' == (w & 0xFFFF_FF00) | (val & 0xFFFF)
    ensures Agrees(w, w', 0xFFFF_FF00)
  {
  }

  lemma MovwBits(w: bv32, x: bv32, val: bv32, w': bv32)
    requires val == x & 0xFFFF
    requires w' == (w & 0xFFF0_F000) | (val & 0xFFF) | (((val >> 12) & 0xFF) << 16)
    ensures Agrees(w, w', 0xFFF0_F000)
  {
  }

  lemma ThmMovwBits(w: bv32, x: bv32, val: bv32, w': bv32)
    requires val == x & 0xFFFF
    requires w' == (w & 0x8F00_FBF0) | (((val >> 11) & 1) << 10) | ((val >> 12) & 0xFF)
                   | (((val >> 8) & 7) << 28) | ((val & 0xFF) << 16)
    ensures Agrees(w, w', 0x8F00_FBF0)
  {
  }

  lemma Imm12Bits(w: bv32, a: bv32, s: bv32, w': bv32)
    requires w' == (w & 0xFF7F_F000) | (a & 0xFFF) | s && (s == 0 || s == 0x80_0000)
    ensures Agrees(w, w', 0xFF7F_F000)
  {
  }

  lemma Imm8Bits(w: bv32, a: bv32, s: bv32, w': bv32)
    requires w' == (w & 0xFF7F_F0F0) | (((a >> 4) & 0xF) << 8) | (a & 0xF) | s && (s == 0 || s == 0x80_0000)
    ensures Agrees(w, w', 0xFF7F_F0F0)
  {
  }

  lemma Pc12Bits(w: bv32, a: bv32, s: bv32, w': bv32)
    requires w' == (w & 0xF000_FF7F) | s | ((a & 0xFFF) << 16) && (s == 0 || s == 0x80)
    ensures Agrees(w, w', 0xF000_FF7F)
  {
  }

  predicate Agrees(w: bv32, w': bv32, kept: bv32) { w' & kept == w & kept }

  lemma UpBitIs(v: bv32, bit: bv32)
    ensures UpBit(v, bit) == 0 || UpBit(v, bit) == bit
  {
  }

  lemma Jump24Packs(v: bv32, val: bv32)
    requires val == MaskResult(PackResult(v, Jump24), Jump24)
    ensures val == Asr2(v) & 0x00FF_FFFF
  {
    hide Asr2, Asr16;
  }

  lemma Jump24Writes(w: bv32, symval: bv32, val: bv32, w': bv32)
    requires w' == Written(w, Jump24, val, symval)
    ensures w' == (w & 0xFF00_0000) | val
  {
  }

  lemma Jump24Keeps(w: bv32, v: bv32, symval: bv32, val: bv32, w': bv32)
    requires val == MaskResult(PackResult(v, Jump24), Jump24) && w' == Written(w, Jump24, val, symval)
    ensures Agrees(w, w', 0xFF00_0000)
  {
    hide MaskResult, PackResult, Written, Asr2, Asr16, Agrees;
    Jump24Packs(v, val);
    Jump24Writes(w, symval, val, w');
    Jump24Bits(w, Asr2(v), val, w');
  }

  lemma MovtKeeps(w: bv32, v: bv32, symval: bv32, val: bv32, w': bv32)
    requires val == MaskResult(PackResult(v, Movt), Movt) && w' == Written(w, Movt, val, symval)
    ensures Agrees(w, w', 0xFFF0_F000)
  {
    hide MaskResult, PackResult, Written, Asr2, Asr16, Agrees;
    MovtPacks(v, val);
    MovtWrites(w, symval, val, w');
    MovwBits(w, Asr16(v), val, w');
  }

  lemma ThmMovtKeeps(w: bv32, v: bv32, symval: bv32, val: bv32, w': bv32)
    requires val == MaskResult(PackResult(v, ThmMovt), ThmMovt) && w' == Written(w, ThmMovt, val, symval)
    ensures Agrees(w, w', 0x8F00_FBF0)
  {
    hide MaskResult, PackResult, Written, Asr2, Asr16, Agrees;
    ThmMovtPacks(v, val);
    ThmMovtWrites(w, symval, val, w');
    ThmMovwBits(w, Asr16(v), val, w');
  }

  lemma Abs16Keeps(w: bv32, v: bv32, symval: bv32, val: bv32, w': bv32)
    requires val == MaskResult(PackResult(v, Abs16), Abs16) && w' == Written(w, Abs16, val, symval)
    ensures Agrees(w, w', 0xFFFF_0000)
  {
    hide Asr1, Asr2, Asr16, Agrees;
    Abs16Bits(w, v, val, w');
  }

  lemma Abs8Keeps(w: bv32, v: bv32, symval: bv32, val: bv32, w': bv32)
    requires val == MaskResult(PackResult(v, Abs8), Abs8) && w' == Written(w, Abs8, val, symval)
    ensures Agrees(w, w', 0xFFFF_FF00)
  {
    hide Asr1, Asr2, Asr16, Agrees;
    Abs8Bits(w, v, val, w');
  }

  lemma ThmJump11Keeps(w: bv32, v: bv32, symval: bv32, val: bv32, w': bv32)
    requires val == MaskResult(PackResult(v, ThmJump11), ThmJump11) && w' == Written(w, ThmJump11, val, symval)
    ensures Agrees(w, w', 0xFFFF_F800)
  {
    hide Asr1, Asr2, Asr16, Agrees;
    ThmJump11Bits(w, Asr1(v), val, w');
  }

  lemma ThmJump8Keeps(w: bv32, v: bv32, symval: bv32, val: bv32, w': bv32)
    requires val == MaskResult(PackResult(v, ThmJump8), ThmJump8) && w' == Written(w, ThmJump8, val, symval)
    ensures Agrees(w, w', 0xFFFF_FF00)
  {
    hide Asr1, Asr2, Asr16, Agrees;
    ThmJump8Bits(w, Asr1(v), val, w');
  }

  lemma ThmJump6Keeps(w: bv32, v: bv32, symval: bv32, val: bv32, w': bv32)
    requires val == MaskResult(PackResult(v, ThmJump6), ThmJump6) && w' == Written(w, ThmJump6, val, symval)
    ensures Agrees(w, w', 0xFFFF_FD07)
  {
    hide Asr1, Asr2, Asr16, Agrees;
    ThmJump6Bits(w, Asr1(v), val, w');
  }

  lemma ThmAbs5Keeps(w: bv32, v: bv32, symval: bv32, val: bv32, w': bv32)
    requires val == MaskResult(PackResult(v, ThmAbs5), ThmAbs5) && w' == Written(w, ThmAbs5, val, symval)
    ensures Agrees(w, w', 0xFFFF_F83F)
  {
    hide Asr1, Asr2, Asr16, Agrees;
    ThmAbs5Bits(w, Asr2(v), val, w');
  }

  lemma ThmPc8Keeps(w: bv32, v: bv32, symval: bv32, val: bv32, w': bv32)
    requires val == MaskResult(PackResult(v, ThmPc8), ThmPc8) && w' == Written(w, ThmPc8, val, symval)
    ensures Agrees(w, w', 0xFFFF_FF00)
  {
    hide Asr1, Asr2, Asr16, Agrees;
    ThmPc8Bits(w, Asr2(v), val, w');
  }

  lemma MovwKeeps(w: bv32, v: bv32, symval: bv32, val: bv32, w': bv32)
    requires val == MaskResult(PackResult(v, Movw), Movw) && w' == Written(w, Movw, val, symval)
    ensures Agrees(w, w', 0xFFF0_F000)
  {
    hide Asr1, Asr2, Asr16, Agrees;
    MovwBits(w, v, val, w');
  }

  lemma ThmMovwKeeps(w: bv32, v: bv32, symval: bv32, val: bv32, w': bv32)
    requires val == MaskResult(PackResult(v, ThmMovw), ThmMovw) && w' == Written(w, ThmMovw, val, symval)
    ensures Agrees(w, w', 0x8F00_FBF0)
  {
    hide Asr1, Asr2, Asr16, Agrees;
    ThmMovwBits(w, v, val, w');
  }

  lemma Abs12Keeps(w: bv32, v: bv32, symval: bv32, val: bv32, w': bv32)
    requires val == MaskResult(PackResult(v, Abs12), Abs12) && w' == Written(w, Abs12, val, symval)
    ensures Agrees(w, w', 0xFF7F_F000)
  {
    hide Abs, UpBit, Agrees;
    UpBitIs(v, 0x80_0000);
    Imm12Bits(w, Abs(v), UpBit(v, 0x80_0000), w');
  }

  lemma LdrPcG0Keeps(w: bv32, v: bv32, symval: bv32, val: bv32, w': bv32)
    requires val == MaskResult(PackResult(v, LdrPcG0), LdrPcG0) && w' == Written(w, LdrPcG0, val, symval)
    ensures Agrees(w, w', 0xFF7F_F000)
  {
    hide Abs, UpBit, Agrees;
    UpBitIs(v, 0x80_0000);
    Imm12Bits(w, Abs(v), UpBit(v, 0x80_0000), w');
  }

  lemma LdrsPcG0Keeps(w: bv32, v: bv32, symval: bv32, val: bv32, w': bv32)
    requires val == MaskResult(PackResult(v, LdrsPcG0), LdrsPcG0) && w' == Written(w, LdrsPcG0, val, symval)
    ensures Agrees(w, w', 0xFF7F_F0F0)
  {
    hide Abs, UpBit, Agrees;
    UpBitIs(v, 0x80_0000);
    Imm8Bits(w, Abs(v), UpBit(v, 0x80_0000), w');
  }

  lemma ThmPc12Keeps(w: bv32, v: bv32, symval: bv32, val: bv32, w': bv32)
    requires val == MaskResult(PackResult(v, ThmPc12), ThmPc12) && w' == Written(w, ThmPc12, val, symval)
    ensures Agrees(w, w', 0xF000_FF7F)
  {
    hide Abs, UpBit, Agrees;
    UpBitIs(v, 0x80);
    Pc12Bits(w, Abs(v), UpBit(v, 0x80), w');
  }

  lemma BranchFieldBits(s: bv32, j1: bv32, j2: bv32, x: bv32, y: bv32, k: bv32)
    requires s <= 1 && j1 <= 1 && j2 <= 1 && x <= 0x3FF && y <= 0x7FF
    requires k == (s << 10) | x | (j1 << 29) | (j2 << 27) | (y << 16)
    ensures k & 0xD000_F800 == 0
  {
  }

  lemma BranchBitsKept(v: bv32)
    ensures BranchBits(v) & 0xD000_F800 == 0
  {
    hide Toggled, BranchFields;
    var s, x, y := (v >> 23) & 1, (v >> 11) & 0x3FF, v & 0x7FF;
    var j1, j2 := Toggled(v >> 22, s), Toggled(v >> 21, s);
    BranchParts(v, s, j1, j2, x, y);
    BranchFieldsKept(s, j1, j2, x, y);
  }

  lemma BranchFieldsKept(s: bv32, j1: bv32, j2: bv32, x: bv32, y: bv32)
    requires s <= 1 && j1 <= 1 && j2 <= 1 && x <= 0x3FF && y <= 0x7FF
    ensures BranchFields(s, j1, j2, x, y) & 0xD000_F800 == 0
  {
    BranchFieldBits(s, j1, j2, x, y, BranchFields(s, j1, j2, x, y));
  }

  lemma BranchBaseIs(w: bv32, toArm: bool)
    ensures BranchBase(w, toArm) == (if toArm then w & 0xEFFF_FFFF else w) & 0xD000_F800
  {
  }

  lemma ThumbBranchKeeps(w: bv32, val: bv32, toArm: bool, w': bv32)
    requires w' == WriteThumbBranch(w, val, toArm)
    ensures w' & 0xC000_F800 == w & 0xC000_F800
    ensures !toArm ==> w' & 0xD000_F800 == w & 0xD000_F800
  {
    hide BranchBase, BranchBits, Evened;
    BranchBaseIs(w, toArm);
    BranchBitsKept(Evened(val, toArm));
    BranchKept(w, BranchBase(w, toArm), BranchBits(Evened(val, toArm)), w');
  }

  lemma ThmCallKeeps(w: bv32, v: bv32, symval: bv32, val: bv32, w': bv32)
    requires val == MaskResult(PackResult(v, ThmCall), ThmCall) && w' == Written(w, ThmCall, val, symval)
    ensures Agrees(w, w', Kept(w, ThmCall, symval))
  {
    hide WriteThumbBranch, Asr1;
    ThumbBranchKeeps(w, val, !Thumb(symval), w');
  }

  lemma ThmJump24Keeps(w: bv32, v: bv32, symval: bv32, val: bv32, w': bv32)
    requires val == MaskResult(PackResult(v, ThmJump24), ThmJump24) && w' == Written(w, ThmJump24, val, symval)
    ensures Agrees(w, w', 0xD000_F800)
  {
    hide WriteThumbBranch, Asr1;
    ThumbBranchKeeps(w, val, false, w');
  }

  lemma CallPacked(a: bv32, p: bv32, q: bv32, h: bv32)
    requires p == a & 0x01FF_FFFF && q == p >> 1 && h == p & 1
    ensures q & 0xFF00_0000 == 0 && h <= 1
  {
  }

  lemma BlBits(b: bv32, q: bv32, w': bv32)
    requires q & 0xFF00_0000 == 0 && w' == b | q
    ensures w' & 0xFF00_0000 == b & 0xFF00_0000
  {
  }

  lemma BlxBits(b: bv32, h: bv32, q: bv32, w': bv32)
    requires q & 0xFF00_0000 == 0 && h <= 1 && w' == ((b & 0xFEFF_FFFF) | (h << 24)) | q
    ensures w' & 0xFE00_0000 == b & 0xFE00_0000
  {
  }

  lemma BaseBits(w: bv32, thumb: bool, b: bv32)
    requires b == (if thumb then w | 0xF000_0000 else w) & 0xFF00_0000
    ensures b & 0x0F00_0000 == w & 0x0F00_0000 && (!thumb ==> b & 0xFF00_0000 == w & 0xFF00_0000)
  {
  }

  lemma CallBaseKeeps(w: bv32, symval: bv32)
    ensures CallBase(w, symval) & 0x0F00_0000 == w & 0x0F00_0000
    ensures !Thumb(symval) ==> CallBase(w, symval) & 0xFF00_0000 == w & 0xFF00_0000
  {
    BaseBits(w, Thumb(symval), CallBase(w, symval));
  }

  lemma NarrowBl(w: bv32, b: bv32, w': bv32)
    requires w' & 0xFF00_0000 == b & 0xFF00_0000 && b & 0x0F00_0000 == w & 0x0F00_0000
    ensures w' & 0x0F00_0000 == w & 0x0F00_0000
  {
  }

  lemma NarrowBlx(w: bv32, b: bv32, w': bv32)
    requires w' & 0xFE00_0000 == b & 0xFE00_0000 && b & 0x0F00_0000 == w & 0x0F00_0000
    ensures w' & 0x0E00_0000 == w & 0x0E00_0000
    ensures b & 0xFF00_0000 == w & 0xFF00_0000 ==> w' & 0xFE00_0000 == w & 0xFE00_0000
  {
  }

  lemma CallInserted(w: bv32, symval: bv32, b: bv32, h: bv32, q: bv32, w': bv32)
    requires b == CallBase(w, symval) && q & 0xFF00_0000 == 0 && h <= 1 && w' == InsertCall(b, h, q)
    ensures w' & CallKept(w, symval) == w & CallKept(w, symval)
  {
    hide IsBlx, CallBase, InsertCall, EndsAsBlx;
    CallBaseKeeps(w, symval);
    BaseIsBlx(w, symval);
    if IsBlx(b) {
      BlxInserted(b, h, q);
      BlxBits(b, h, q, w');
      NarrowBlx(w, b, w');
    } else {
      BlInserted(b, h, q);
      BlBits(b, q, w');
      NarrowBl(w, b, w');
    }
  }

  lemma CallParted(v: bv32, p: bv32)
    requires p == Asr1(v) & 0x01FF_FFFF
    ensures (p >> 1) & 0xFF00_0000 == 0 && p & 1 <= 1
  {
    hide *;
    CallPacked(Asr1(v), p, p >> 1, p & 1);
  }

  lemma CallIs(w: bv32, p: bv32, symval: bv32)
    ensures WriteCall(w, p, symval) == InsertCall(CallBase(w, symval), p & 1, p >> 1)
  {
    hide InsertCall, CallBase;
  }

  lemma CallKeeps(w: bv32, v: bv32, p: bv32, symval: bv32, w': bv32)
    requires p == Asr1(v) & 0x01FF_FFFF && w' == WriteCall(w, p, symval)
    ensures w' & CallKept(w, symval) == w & CallKept(w, symval)
  {
    hide *;
    CallParted(v, p);
    CallIs(w, p, symval);
    CallInserted(w, symval, CallBase(w, symval), p & 1, p >> 1, w');
  }

  lemma CallsKeep(w: bv32, r: RelocType, v: bv32, symval: bv32, val: bv32, w': bv32)
    requires r.Call? || r.Pc24?
    requires val == MaskResult(PackResult(v, r), r) && w' == Written(w, r, val, symval)
    ensures Agrees(w, w', Kept(w, r, symval))
  {
    hide Asr1, WriteCall, CallKept;
    CallKeeps(w, v, val, symval, w');
  }

  lemma BranchKept(w: bv32, b: bv32, k: bv32, w': bv32)
    requires (b == w & 0xD000_F800 || b == (w & 0xEFFF_FFFF) & 0xD000_F800) && k & 0xD000_F800 == 0 && w' == b | k
    ensures w' & 0xC000_F800 == w & 0xC000_F800
    ensures b == w & 0xD000_F800 ==> w' & 0xD000_F800 == w & 0xD000_F800
  {
  }

  lemma PlainKeeps(w: bv32, r: RelocType, v: bv32, symval: bv32, val: bv32, w': bv32)
    requires !r.Call? && !r.Pc24? && !r.ThmCall? && !r.Abs32? && !r.Rel32?
    requires val == MaskResult(PackResult(v, r), r) && w' == Written(w, r, val, symval)
    ensures Agrees(w, w', Kept(w, r, symval))
  {
    hide MaskResult, PackResult, Written, Agrees;
    match r
    case Abs16 => Abs16Keeps(w, v, symval, val, w');
    case Abs8 => Abs8Keeps(w, v, symval, val, w');
    case Jump24 => Jump24Keeps(w, v, symval, val, w');
    case ThmJump24 => ThmJump24Keeps(w, v, symval, val, w');
    case ThmJump11 => ThmJump11Keeps(w, v, symval, val, w');
    case ThmJump8 => ThmJump8Keeps(w, v, symval, val, w');
    case ThmJump6 => ThmJump6Keeps(w, v, symval, val, w');
    case ThmAbs5 => ThmAbs5Keeps(w, v, symval, val, w');
    case ThmPc8 => ThmPc8Keeps(w, v, symval, val, w');
    case ThmPc12 => ThmPc12Keeps(w, v, symval, val, w');
    case Abs12 => Abs12Keeps(w, v, symval, val, w');
    case Movw => MovwKeeps(w, v, symval, val, w');
    case Movt => MovtKeeps(w, v, symval, val, w');
    case ThmMovw => ThmMovwKeeps(w, v, symval, val, w');
    case ThmMovt => ThmMovtKeeps(w, v, symval, val, w');
    case LdrPcG0 => LdrPcG0Keeps(w, v, symval, val, w');
    case LdrsPcG0 => LdrsPcG0Keeps(w, v, symval, val, w');
  }

  lemma WordKeeps(w: bv32, r: RelocType, symval: bv32, w': bv32)
    requires r.Abs32? || r.Rel32?
    ensures Agrees(w, w', Kept(w, r, symval))
  {
  }

  lemma AllKeep(w: bv32, r: RelocType, v: bv32, symval: bv32, val: bv32, w': bv32)
    requires val == MaskResult(PackResult(v, r), r) && w' == Written(w, r, val, symval)
    ensures Agrees(w, w', Kept(w, r, symval))
  {
    hide *;
    match r
    case Call | Pc24 => CallsKeep(w, r, v, symval, val, w');
    case ThmCall => ThmCallKeeps(w, v, symval, val, w');
    case Abs32 | Rel32 => WordKeeps(w, r, symval, w');
    case _ => PlainKeeps(w, r, v, symval, val, w');
  }

  /** Relocating a field leaves all other bits of the word as they were. */
  lemma KeepsOtherBits(w: bv32, r: RelocType, v: bv32, symval: bv32)
    ensures Agrees(w, Relocated(w, r, v, symval), Kept(w, r, symval))
  {
    hide MaskResult, PackResult, Written, Kept, Agrees;
    var val := MaskResult(PackResult(v, r), r);
    AllKeep(w, r, v, symval, val, Written(w, r, val, symval));
  }
}
