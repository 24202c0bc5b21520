/** Which values survive being written into a relocation field and read back. */
module ArmRoundTrip {
  import opened ArmCodec
  import opened ArmBits

  lemma HalfBitIsBit(w: bv32)
    ensures HalfBit(w) <= 1
  {
    Bit24(w, HalfBit(w));
  }

  lemma OffsetBits(v: bv32, p: bv32, h: bv32)
    requires p == (v >> 2) & 0xFF_FFFF && h <= 1
    ensures ByteOffset(p, h) == (v & 0x03FF_FFFC) | (h << 1)
  {
    Scaled26(v, p, h, ByteOffset(p, h));
  }

  lemma Extends26(v: bv32, h: bv32, f: bv32)
    requires f == (v & 0x03FF_FFFC) | (h << 1) && h <= 1
    ensures SignExtend(f, 0x200_0000) == v <==> (v >> 25 == 0 || v >> 25 == 0x7F) && v & 3 == h << 1
  {
    Extended26(v, h, f, SignExtend(f, 0x200_0000));
  }

  lemma CallForm(w: bv32, p: bv32)
    requires w & 0xFF_FFFF == p
    ensures UnpackCall(w) == SignExtend(ByteOffset(p, HalfBit(w)), 0x200_0000)
  {
  }

  lemma CallValue(v: bv32, p: bv32, h: bv32, u: bv32)
    requires p == (v >> 2) & 0xFF_FFFF && u == SignExtend(ByteOffset(p, h), 0x200_0000) && h <= 1
    ensures u == v <==> (v >> 25 == 0 || v >> 25 == 0x7F) && v & 3 == h << 1
  {
    OffsetBits(v, p, h);
    Extends26(v, h, ByteOffset(p, h));
  }

  /** Reading a branch whose low bits hold v / 4. */
  lemma CallReads(w: bv32, v: bv32, p: bv32)
    requires w & 0xFF_FFFF == p && p == (v >> 2) & 0xFF_FFFF
    ensures UnpackCall(w) == v <==> (v >> 25 == 0 || v >> 25 == 0x7F) && v & 3 == HalfBit(w) << 1
  {
    HalfBitIsBit(w);
    CallForm(w, p);
    CallValue(v, p, HalfBit(w), UnpackCall(w));
  }

  lemma JumpHalf(w: bv32, t: bv32)
    requires t == w >> 24
    ensures HalfBit(w) << 1 == if t == 0xFB then 2 else 0
  {
    Bit24(w, HalfBit(w));
  }

  lemma Packed24(v: bv32)
    ensures Asr2(v) & 0x00FF_FFFF == (v >> 2) & 0xFF_FFFF
  {
    Low24(v, Asr2(v));
  }

  lemma JumpWord(w: bv32, v: bv32, p: bv32, w': bv32)
    requires p == Asr2(v) & 0x00FF_FFFF && w' == (w & 0xFF00_0000) | p
    ensures w' & 0xFF_FFFF == p && p == (v >> 2) & 0xFF_FFFF && w' >> 24 == w >> 24
  {
    Packed24(v);
    Top24(v, p);
    Imm24(w, p, w');
  }

  lemma JumpValue(w: bv32, v: bv32, p: bv32, w': bv32, u: bv32)
    requires p == Asr2(v) & 0x00FF_FFFF && w' == (w & 0xFF00_0000) | p && u == UnpackCall(w')
    ensures u == v <==> (v >> 25 == 0 || v >> 25 == 0x7F) && v & 3 == if w >> 24 == 0xFB then 2 else 0
  {
    JumpWord(w, v, p, w');
    CallReads(w', v, p);
    JumpHalf(w', w >> 24);
  }

  lemma JumpRoundTrip(w: bv32, v: bv32, symval: bv32, val: bv32, w': bv32)
    requires val == MaskResult(PackResult(v, Jump24), Jump24) && w' == Written(w, Jump24, val, symval)
    ensures Unpacked(w', Jump24) == v <==> Fits(w, Jump24, v, symval)
  {
    JumpValue(w, v, val, w', UnpackCall(w'));
  }

  lemma Signed26Range(v: bv32)
    ensures Signed26(v) <==> v + 0x200_0000 < 0x400_0000
  {
    Range26Shifted(v, v + 0x200_0000);
  }

  lemma Signed25Range(v: bv32)
    ensures Signed25(v) <==> v + 0x100_0000 < 0x200_0000
  {
    Range25Shifted(v, v + 0x100_0000);
  }

  lemma Signed16Range(v: bv32)
    ensures Signed16(v) <==> v + 0x8000 < 0x1_0000
  {
    Range16(v, v + 0x8000);
  }

  lemma Signed12Range(v: bv32)
    ensures Signed12(v) <==> v + 0x800 < 0x1000
  {
    Range12(v, v + 0x800);
  }

  lemma Signed9Range(v: bv32)
    ensures Signed9(v) <==> v + 0x100 < 0x200
  {
    Range9(v, v + 0x100);
  }

  lemma Signed8Range(v: bv32)
    ensures Signed8(v) <==> v + 0x80 < 0x100
  {
    Range8(v, v + 0x80);
  }

  /** The widths as ranges of signed numbers. */
  lemma SignedRanges(v: bv32)
    ensures Signed26(v) <==> v + 0x200_0000 < 0x400_0000
    ensures Signed25(v) <==> v + 0x100_0000 < 0x200_0000
    ensures Signed16(v) <==> v + 0x8000 < 0x1_0000
    ensures Signed12(v) <==> v + 0x800 < 0x1000
    ensures Signed9(v) <==> v + 0x100 < 0x200
    ensures Signed8(v) <==> v + 0x80 < 0x100
  {
    hide *;
    Signed26Range(v);
    Signed25Range(v);
    Signed16Range(v);
    Signed12Range(v);
    Signed9Range(v);
    Signed8Range(v);
  }

  lemma Over26(v: bv32)
    ensures Asr25(v) != 0 && Asr25(v) != 0xFFFF_FFFF <==> !Signed26(v)
  {
    Range26(v, Asr25(v));
  }

  lemma Over25(v: bv32)
    ensures Asr24(v) != 0 && Asr24(v) != 0xFFFF_FFFF <==> !Signed25(v)
  {
    Range25(v, Asr24(v));
  }

  lemma OverMagnitude12(v: bv32)
    ensures 0x1000 <= Abs(v) < 0x8000_0000 <==> 0x1000 <= v <= 0xFFFF_F000 && v != 0x8000_0000
  {
    MagnitudeOver12(v, Abs(v));
  }

  /** The values that are reported as an overflow: of a branch those outside its range, of a 12-bit offset those
      of a magnitude from 2^12 on but for the most negative number, which is its own magnitude, and of halfwords
      and bytes those that fit neither as a signed nor as an unsigned number. */
  lemma OverflowRanges(r: RelocType, v: bv32)
    ensures r.Call? || r.Pc24? || r.Jump24? ==> (Overflow(r, v) <==> !(v + 0x200_0000 < 0x400_0000))
    ensures r.ThmCall? || r.ThmJump24? ==> (Overflow(r, v) <==> !(v + 0x100_0000 < 0x200_0000))
    ensures r.Abs12? || r.ThmPc12? ==> (Overflow(r, v) <==> 0x1000 <= v <= 0xFFFF_F000 && v != 0x8000_0000)
    ensures r.Abs16? ==> (Overflow(r, v) <==> 0xFFFF < v < 0xFFFF_8000)
    ensures r.Abs8? ==> (Overflow(r, v) <==> 0xFF < v < 0xFFFF_FF80)
    ensures r !in {Call, Pc24, Jump24, ThmCall, ThmJump24, Abs12, ThmPc12, Abs16, Abs8} ==> !Overflow(r, v)
  {
    hide Asr24, Asr25, Abs, Signed26, Signed25;
    match r
    case Call | Pc24 | Jump24 =>
      Over26(v);
      Signed26Range(v);
    case ThmCall | ThmJump24 =>
      Over25(v);
      Signed25Range(v);
    case Abs12 | ThmPc12 => OverMagnitude12(v);
    case Abs16 => Over16(v, v + 32768);
    case Abs8 => Over8(v, v + 128);
    case _ =>
  }

  lemma Reads16(v: bv32, f: bv32)
    requires f == v & 0xFFFF
    ensures SignExtend(f, 0x8000) == v <==> v >> 15 == 0 || v >> 15 == 0x1_FFFF
  {
    Extended16(v, f, SignExtend(f, 0x8000));
  }

  lemma Reads12(v: bv32, f: bv32)
    requires f == v & 0xFFE
    ensures SignExtend(f, 0x800) == v <==> (v >> 11 == 0 || v >> 11 == 0x1F_FFFF) && v & 1 == 0
  {
    Extended12(v, f, SignExtend(f, 0x800));
  }

  lemma Reads9(v: bv32, f: bv32)
    requires f == v & 0x1FE
    ensures SignExtend(f, 0x100) == v <==> (v >> 8 == 0 || v >> 8 == 0xFF_FFFF) && v & 1 == 0
  {
    Extended9(v, f, SignExtend(f, 0x100));
  }

  lemma Reads8(v: bv32, f: bv32)
    requires f == v & 0xFF
    ensures SignExtend(f, 0x80) == v <==> v >> 7 == 0 || v >> 7 == 0x1FF_FFFF
  {
    Extended8(v, f, SignExtend(f, 0x80));
  }

  lemma Abs16Value(w: bv32, v: bv32, p: bv32, w': bv32, u: bv32)
    requires p == v & 0xFFFF && w' == (w & 0xFFFF_0000) | (p & 0xFFFF) && u == SignExtend(w' & 0xFFFF, 0x8000)
    ensures u == v <==> Signed16(v)
  {
    Half(w, v, p, w');
    Reads16(v, w' & 0xFFFF);
  }

  lemma Abs8Value(w: bv32, v: bv32, p: bv32, w': bv32, u: bv32)
    requires p == v & 0xFF && w' == (w & 0xFFFF_FF00) | (p & 0xFF) && u == SignExtend(w' & 0xFF, 0x80)
    ensures u == v <==> Signed8(v)
  {
    Byte(w, v, p, w');
    Reads8(v, w' & 0xFF);
  }

  lemma Packed11(v: bv32)
    ensures Asr1(v) & 0x7FF == (v >> 1) & 0x7FF
  {
    Low11(v, Asr1(v));
  }

  lemma Packed8(v: bv32)
    ensures Asr1(v) & 0xFF == (v >> 1) & 0xFF
  {
    Low8(v, Asr1(v));
  }

  lemma Jump11Value(w: bv32, v: bv32, p: bv32, w': bv32, u: bv32)
    requires p == Asr1(v) & 0x7FF && w' == (w & 0xFFFF_F800) | (p & 0xFFFF)
    requires u == SignExtend((w' & 0x7FF) << 1, 0x800)
    ensures u == v <==> Signed12(v) && v & 1 == 0
  {
    hide Asr1, SignExtend;
    Packed11(v);
    Jump11Word(w, v, p, w');
    Reads12(v, (w' & 0x7FF) << 1);
  }

  lemma Jump8Value(w: bv32, v: bv32, p: bv32, w': bv32, u: bv32)
    requires p == Asr1(v) & 0xFF && w' == (w & 0xFFFF_FF00) | (p & 0xFFFF)
    requires u == SignExtend((w' & 0xFF) << 1, 0x100)
    ensures u == v <==> Signed9(v) && v & 1 == 0
  {
    Packed8(v);
    Jump8Word(w, v, p, w');
    Reads9(v, (w' & 0xFF) << 1);
  }

  lemma Abs16Packs(v: bv32, val: bv32)
    requires val == MaskResult(PackResult(v, Abs16), Abs16)
    ensures val == v & 0xFFFF
  {
    hide Asr1, Asr2, Asr16;
  }

  lemma Abs16Writes(w: bv32, symval: bv32, val: bv32, w': bv32)
    requires w' == Written(w, Abs16, val, symval)
    ensures w' == (w & 0xFFFF_0000) | (val & 0xFFFF)
  {
  }

  lemma Abs16Unpacks(w: bv32)
    ensures Unpacked(w, Abs16) == SignExtend(w & 0xFFFF, 0x8000)
  {
    hide SignExtend;
  }

  lemma Abs16Fits(w: bv32, v: bv32, symval: bv32)
    ensures Fits(w, Abs16, v, symval) <==> Signed16(v)
  {
    hide Signed16;
  }

  lemma Abs16RoundTrip(w: bv32, v: bv32, symval: bv32, val: bv32, w': bv32)
    requires val == MaskResult(PackResult(v, Abs16), Abs16) && w' == Written(w, Abs16, val, symval)
    ensures Unpacked(w', Abs16) == v <==> Fits(w, Abs16, v, symval)
  {
    hide *;
    Abs16Packs(v, val);
    Abs16Writes(w, symval, val, w');
    Abs16Unpacks(w');
    Abs16Fits(w, v, symval);
    Abs16Value(w, v, val, w', Unpacked(w', Abs16));
  }

  lemma Abs8RoundTrip(w: bv32, v: bv32, symval: bv32, val: bv32, w': bv32)
    requires val == MaskResult(PackResult(v, Abs8), Abs8) && w' == Written(w, Abs8, val, symval)
    ensures Unpacked(w', Abs8) == v <==> Fits(w, Abs8, v, symval)
  {
    Abs8Value(w, v, val, w', Unpacked(w', Abs8));
  }

  lemma Jump11RoundTrip(w: bv32, v: bv32, symval: bv32, val: bv32, w': bv32)
    requires val == MaskResult(PackResult(v, ThmJump11), ThmJump11) && w' == Written(w, ThmJump11, val, symval)
    ensures Unpacked(w', ThmJump11) == v <==> Fits(w, ThmJump11, v, symval)
  {
    Jump11Value(w, v, val, w', Unpacked(w', ThmJump11));
  }

  lemma Jump8RoundTrip(w: bv32, v: bv32, symval: bv32, val: bv32, w': bv32)
    requires val == MaskResult(PackResult(v, ThmJump8), ThmJump8) && w' == Written(w, ThmJump8, val, symval)
    ensures Unpacked(w', ThmJump8) == v <==> Fits(w, ThmJump8, v, symval)
  {
    Jump8Value(w, v, val, w', Unpacked(w', ThmJump8));
  }

  lemma MovwReads(w: bv32, v: bv32, p: bv32, w': bv32, u: bv32)
    requires p == v & 0xFFFF && w' == (w & 0xFFF0_F000) | (p & 0xFFF) | (((p >> 12) & 0xFF) << 16)
    requires u == SignExtend((((w' >> 16) & 0xF) << 12) | (w' & 0xFFF), 0x8000)
    ensures u == SignExtend(p, 0x8000)
  {
    LowHalf(v, p);
    MovWord(w, p, w', (((w' >> 16) & 0xF) << 12) | (w' & 0xFFF));
  }

  lemma MovwValue(w: bv32, v: bv32, p: bv32, w': bv32, u: bv32)
    requires p == v & 0xFFFF && w' == (w & 0xFFF0_F000) | (p & 0xFFF) | (((p >> 12) & 0xFF) << 16)
    requires u == SignExtend((((w' >> 16) & 0xF) << 12) | (w' & 0xFFF), 0x8000)
    ensures u == v <==> Signed16(v)
  {
    hide SignExtend;
    MovwReads(w, v, p, w', u);
    Reads16(v, p);
  }

  lemma MovtPacks(v: bv32, val: bv32)
    requires val == MaskResult(PackResult(v, Movt), Movt)
    ensures val == Asr16(v) & 0xFFFF
  {
    hide Asr2, Asr16;
  }

  lemma MovtWrites(w: bv32, symval: bv32, val: bv32, w': bv32)
    requires w' == Written(w, Movt, val, symval)
    ensures w' == (w & 0xFFF0_F000) | (val & 0xFFF) | (((val >> 12) & 0xFF) << 16)
  {
  }

  lemma ThmMovtPacks(v: bv32, val: bv32)
    requires val == MaskResult(PackResult(v, ThmMovt), ThmMovt)
    ensures val == Asr16(v) & 0xFFFF
  {
    hide Asr2, Asr16;
  }

  lemma ThmMovtWrites(w: bv32, symval: bv32, val: bv32, w': bv32)
    requires w' == Written(w, ThmMovt, val, symval)
    ensures w' == (w & 0x8F00_FBF0) | (((val >> 11) & 1) << 10) | ((val >> 12) & 0xFF)
                   | (((val >> 8) & 7) << 28) | ((val & 0xFF) << 16)
  {
  }

  lemma MovwPacks(v: bv32, val: bv32)
    requires val == MaskResult(PackResult(v, Movw), Movw)
    ensures val == v & 0xFFFF
  {
    hide Asr1, Asr2, Asr16;
  }

  lemma MovwWrites(w: bv32, symval: bv32, val: bv32, w': bv32)
    requires w' == Written(w, Movw, val, symval)
    ensures w' == (w & 0xFFF0_F000) | (val & 0xFFF) | (((val >> 12) & 0xFF) << 16)
  {
  }

  lemma ThmMovwPacks(v: bv32, val: bv32)
    requires val == MaskResult(PackResult(v, ThmMovw), ThmMovw)
    ensures val == v & 0xFFFF
  {
    hide Asr1, Asr2, Asr16;
  }

  lemma ThmMovwWrites(w: bv32, symval: bv32, val: bv32, w': bv32)
    requires w' == Written(w, ThmMovw, val, symval)
    ensures w' == (w & 0x8F00_FBF0) | (((val >> 11) & 1) << 10) | ((val >> 12) & 0xFF)
                   | (((val >> 8) & 7) << 28) | ((val & 0xFF) << 16)
  {
  }

  lemma MovUnpacks(w: bv32)
    ensures Unpacked(w, Movw) == SignExtend((((w >> 16) & 0xF) << 12) | (w & 0xFFF), 0x8000)
    ensures Unpacked(w, Movt) == SignExtend((((w >> 16) & 0xF) << 12) | (w & 0xFFF), 0x8000)
  {
    hide SignExtend;
  }

  lemma ThmMovUnpacks(w: bv32)
    ensures Unpacked(w, ThmMovw) == SignExtend(((w & 0xF) << 12) | (((w >> 10) & 1) << 11)
                                               | (((w >> 28) & 7) << 8) | ((w >> 16) & 0xFF), 0x8000)
    ensures Unpacked(w, ThmMovt) == SignExtend(((w & 0xF) << 12) | (((w >> 10) & 1) << 11)
                                               | (((w >> 28) & 7) << 8) | ((w >> 16) & 0xFF), 0x8000)
  {
    hide SignExtend;
  }

  lemma MovFits(w: bv32, v: bv32, symval: bv32)
    ensures Fits(w, Movw, v, symval) <==> Signed16(v)
    ensures Fits(w, ThmMovw, v, symval) <==> Signed16(v)
    ensures Fits(w, Movt, v, symval) <==> v == 0 || v == 0xFFFF_FFFF
    ensures Fits(w, ThmMovt, v, symval) <==> v == 0 || v == 0xFFFF_FFFF
  {
    hide Signed16, Signed12, Signed9, Signed8, Signed25, Signed26, Within12, Within8, EndsAsBlx;
  }

  lemma MovwRoundTrip(w: bv32, v: bv32, symval: bv32, val: bv32, w': bv32)
    requires val == MaskResult(PackResult(v, Movw), Movw) && w' == Written(w, Movw, val, symval)
    ensures Unpacked(w', Movw) == v <==> Fits(w, Movw, v, symval)
  {
    hide *;
    MovwPacks(v, val);
    MovwWrites(w, symval, val, w');
    MovUnpacks(w');
    MovFits(w, v, symval);
    MovwValue(w, v, val, w', Unpacked(w', Movw));
  }

  lemma ExtendsHigh(v: bv32, f: bv32)
    requires f == v >> 16
    ensures v >= 0x8000_0000 ==> SignExtend(f, 0x8000) == (v >> 16) | 0xFFFF_0000
    ensures v < 0x8000_0000 ==> SignExtend(f, 0x8000) == v >> 16
  {
    if v >= 0x8000_0000 { HighNegative(v, f); } else { HighPositive(v, f); }
  }

  lemma Asr16Cases(v: bv32)
    ensures v >= 0x8000_0000 ==> Asr16(v) == (v >> 16) | 0xFFFF_0000
    ensures v < 0x8000_0000 ==> Asr16(v) == v >> 16
  {
  }

  lemma ReadsHigh(v: bv32, f: bv32)
    requires f == v >> 16
    ensures SignExtend(f, 0x8000) == Asr16(v)
  {
    hide *;
    ExtendsHigh(v, f);
    Asr16Cases(v);
  }

  lemma PackedHigh(v: bv32, p: bv32)
    requires p == Asr16(v) & 0xFFFF
    ensures p == v >> 16 && p & 0xFFFF_0000 == 0
  {
    HighHalf(v, Asr16(v), p);
  }

  lemma MovtReads(w: bv32, v: bv32, p: bv32, w': bv32, u: bv32)
    requires p == Asr16(v) & 0xFFFF && w' == (w & 0xFFF0_F000) | (p & 0xFFF) | (((p >> 12) & 0xFF) << 16)
    requires u == SignExtend((((w' >> 16) & 0xF) << 12) | (w' & 0xFFF), 0x8000)
    ensures u == Asr16(v)
  {
    PackedHigh(v, p);
    MovWord(w, p, w', (((w' >> 16) & 0xF) << 12) | (w' & 0xFFF));
    ReadsHigh(v, p);
  }

  lemma OwnUpperHalf(v: bv32)
    ensures v == Asr16(v) <==> v == 0 || v == 0xFFFF_FFFF
  {
    HighIsWhole(v, Asr16(v));
  }

  lemma MovtValue(w: bv32, v: bv32, p: bv32, w': bv32, u: bv32)
    requires p == Asr16(v) & 0xFFFF && w' == (w & 0xFFF0_F000) | (p & 0xFFF) | (((p >> 12) & 0xFF) << 16)
    requires u == SignExtend((((w' >> 16) & 0xF) << 12) | (w' & 0xFFF), 0x8000)
    ensures u == v <==> v == 0 || v == 0xFFFF_FFFF
  {
    hide *;
    MovtReads(w, v, p, w', u);
    OwnUpperHalf(v);
  }

  lemma ThmMovForm(w: bv32, p: bv32, w': bv32, u: bv32)
    requires p & 0xFFFF_0000 == 0
    requires w' == (w & 0x8F00_FBF0) | (((p >> 11) & 1) << 10) | ((p >> 12) & 0xFF)
                   | (((p >> 8) & 7) << 28) | ((p & 0xFF) << 16)
    requires u == SignExtend(((w' & 0xF) << 12) | (((w' >> 10) & 1) << 11) | (((w' >> 28) & 7) << 8)
                             | ((w' >> 16) & 0xFF), 0x8000)
    ensures u == SignExtend(p, 0x8000)
  {
    ThumbMovWord(w, p, w',
                 ((w' & 0xF) << 12) | (((w' >> 10) & 1) << 11) | (((w' >> 28) & 7) << 8) | ((w' >> 16) & 0xFF));
  }

  lemma ThmMovwReads(w: bv32, v: bv32, p: bv32, w': bv32, u: bv32)
    requires p == v & 0xFFFF
    requires w' == (w & 0x8F00_FBF0) | (((p >> 11) & 1) << 10) | ((p >> 12) & 0xFF)
                   | (((p >> 8) & 7) << 28) | ((p & 0xFF) << 16)
    requires u == SignExtend(((w' & 0xF) << 12) | (((w' >> 10) & 1) << 11) | (((w' >> 28) & 7) << 8)
                             | ((w' >> 16) & 0xFF), 0x8000)
    ensures u == SignExtend(p, 0x8000)
  {
    LowHalf(v, p);
    ThmMovForm(w, p, w', u);
  }

  lemma ThmMovwValue(w: bv32, v: bv32, p: bv32, w': bv32, u: bv32)
    requires p == v & 0xFFFF
    requires w' == (w & 0x8F00_FBF0) | (((p >> 11) & 1) << 10) | ((p >> 12) & 0xFF)
                   | (((p >> 8) & 7) << 28) | ((p & 0xFF) << 16)
    requires u == SignExtend(((w' & 0xF) << 12) | (((w' >> 10) & 1) << 11) | (((w' >> 28) & 7) << 8)
                             | ((w' >> 16) & 0xFF), 0x8000)
    ensures u == v <==> Signed16(v)
  {
    hide SignExtend;
    ThmMovwReads(w, v, p, w', u);
    Reads16(v, p);
  }

  lemma ThmMovtReads(w: bv32, v: bv32, p: bv32, w': bv32, u: bv32)
    requires p == Asr16(v) & 0xFFFF
    requires w' == (w & 0x8F00_FBF0) | (((p >> 11) & 1) << 10) | ((p >> 12) & 0xFF)
                   | (((p >> 8) & 7) << 28) | ((p & 0xFF) << 16)
    requires u == SignExtend(((w' & 0xF) << 12) | (((w' >> 10) & 1) << 11) | (((w' >> 28) & 7) << 8)
                             | ((w' >> 16) & 0xFF), 0x8000)
    ensures u == Asr16(v)
  {
    PackedHigh(v, p);
    ThmMovForm(w, p, w', u);
    ReadsHigh(v, p);
  }

  lemma ThmMovtValue(w: bv32, v: bv32, p: bv32, w': bv32, u: bv32)
    requires p == Asr16(v) & 0xFFFF
    requires w' == (w & 0x8F00_FBF0) | (((p >> 11) & 1) << 10) | ((p >> 12) & 0xFF)
                   | (((p >> 8) & 7) << 28) | ((p & 0xFF) << 16)
    requires u == SignExtend(((w' & 0xF) << 12) | (((w' >> 10) & 1) << 11) | (((w' >> 28) & 7) << 8)
                             | ((w' >> 16) & 0xFF), 0x8000)
    ensures u == v <==> v == 0 || v == 0xFFFF_FFFF
  {
    hide *;
    ThmMovtReads(w, v, p, w', u);
    OwnUpperHalf(v);
  }

  lemma Packed6(v: bv32)
    ensures Asr1(v) & 0x3F == (v >> 1) & 0x3F
  {
    Low6(v, Asr1(v));
  }

  lemma Packed5(v: bv32)
    ensures Asr2(v) & 0x1F == (v >> 2) & 0x1F
  {
    Low5(v, Asr2(v));
  }

  lemma PackedWords8(v: bv32)
    ensures Asr2(v) & 0xFF == (v >> 2) & 0xFF
  {
    Low8Words(v, Asr2(v));
  }

  lemma ThmJump6Value(w: bv32, v: bv32, p: bv32, w': bv32, u: bv32)
    requires p == Asr1(v) & 0x3F && w' == (w & 0xFFFF_FD07) | (((p >> 5) & 1) << 9) | ((p & 0x1F) << 3)
    requires u == (((((((w' >> 9) & 1) << 5) | ((w' >> 3) & 0x1F)) << 1) + 4) & 0x7F) - 4
    ensures u == v <==> v + 4 < 0x80 && v & 1 == 0
  {
    Packed6(v);
    var f := ((((w' >> 9) & 1) << 5) | ((w' >> 3) & 0x1F)) << 1;
    Jump6Word(w, v, p, w', f);
    Minus4(v, (f + 4) & 0x7F);
    Offset7(v, f, v + 4, (f + 4) & 0x7F);
  }

  lemma ThmPc8Value(w: bv32, v: bv32, p: bv32, w': bv32, u: bv32)
    requires p == Asr2(v) & 0xFF && w' == (w & 0xFFFF_FF00) | (p & 0xFFFF)
    requires u == ((((w' & 0xFF) << 2) + 4) & 0x3FF) - 4
    ensures u == v <==> v + 4 < 0x400 && v & 3 == 0
  {
    PackedWords8(v);
    var f := (w' & 0xFF) << 2;
    Pc8Word(w, v, p, w', f);
    Minus4(v, (f + 4) & 0x3FF);
    Offset10(v, f, v + 4, (f + 4) & 0x3FF);
  }

  lemma ThmAbs5Value(w: bv32, v: bv32, p: bv32, w': bv32, u: bv32)
    requires p == Asr2(v) & 0x1F && w' == (w & 0xFFFF_F83F) | ((p << 6) & 0xFFFF) && u == ((w' >> 6) & 0x1F) << 2
    ensures u == v <==> v < 0x80 && v & 3 == 0
  {
    Packed5(v);
    Abs5Word(w, v, p, w', u);
  }

  lemma MovtRoundTrip(w: bv32, v: bv32, symval: bv32, val: bv32, w': bv32)
    requires val == MaskResult(PackResult(v, Movt), Movt) && w' == Written(w, Movt, val, symval)
    ensures Unpacked(w', Movt) == v <==> Fits(w, Movt, v, symval)
  {
    hide *;
    MovtPacks(v, val);
    MovtWrites(w, symval, val, w');
    MovUnpacks(w');
    MovFits(w, v, symval);
    MovtValue(w, v, val, w', Unpacked(w', Movt));
  }

  lemma ThmMovwRoundTrip(w: bv32, v: bv32, symval: bv32, val: bv32, w': bv32)
    requires val == MaskResult(PackResult(v, ThmMovw), ThmMovw) && w' == Written(w, ThmMovw, val, symval)
    ensures Unpacked(w', ThmMovw) == v <==> Fits(w, ThmMovw, v, symval)
  {
    hide *;
    ThmMovwPacks(v, val);
    ThmMovwWrites(w, symval, val, w');
    ThmMovUnpacks(w');
    MovFits(w, v, symval);
    ThmMovwValue(w, v, val, w', Unpacked(w', ThmMovw));
  }

  lemma ThmMovtRoundTrip(w: bv32, v: bv32, symval: bv32, val: bv32, w': bv32)
    requires val == MaskResult(PackResult(v, ThmMovt), ThmMovt) && w' == Written(w, ThmMovt, val, symval)
    ensures Unpacked(w', ThmMovt) == v <==> Fits(w, ThmMovt, v, symval)
  {
    hide *;
    ThmMovtPacks(v, val);
    ThmMovtWrites(w, symval, val, w');
    ThmMovUnpacks(w');
    MovFits(w, v, symval);
    ThmMovtValue(w, v, val, w', Unpacked(w', ThmMovt));
  }

  lemma ThmJump6RoundTrip(w: bv32, v: bv32, symval: bv32, val: bv32, w': bv32)
    requires val == MaskResult(PackResult(v, ThmJump6), ThmJump6) && w' == Written(w, ThmJump6, val, symval)
    ensures Unpacked(w', ThmJump6) == v <==> Fits(w, ThmJump6, v, symval)
  {
    ThmJump6Value(w, v, val, w', Unpacked(w', ThmJump6));
  }

  lemma ThmPc8RoundTrip(w: bv32, v: bv32, symval: bv32, val: bv32, w': bv32)
    requires val == MaskResult(PackResult(v, ThmPc8), ThmPc8) && w' == Written(w, ThmPc8, val, symval)
    ensures Unpacked(w', ThmPc8) == v <==> Fits(w, ThmPc8, v, symval)
  {
    ThmPc8Value(w, v, val, w', Unpacked(w', ThmPc8));
  }

  lemma ThmAbs5RoundTrip(w: bv32, v: bv32, symval: bv32, val: bv32, w': bv32)
    requires val == MaskResult(PackResult(v, ThmAbs5), ThmAbs5) && w' == Written(w, ThmAbs5, val, symval)
    ensures Unpacked(w', ThmAbs5) == v <==> Fits(w, ThmAbs5, v, symval)
  {
    ThmAbs5Value(w, v, val, w', Unpacked(w', ThmAbs5));
  }

  lemma SignedIf(up: bv32, imm: bv32, i: bv32, down: bool, u: bv32)
    requires u == Signed(up, imm) && imm == i && (up == 1 <==> !down)
    ensures u == if down then 0 - i else i
  {
  }

  lemma Imm12Up(w: bv32, v: bv32, s: bv32, w': bv32, u: bv32)
    requires w' == (w & 0xFF7F_F000) | (v & 0xFFF) | s && s == 0x80_0000 && u == Signed((w' >> 23) & 1, w' & 0xFFF)
    ensures u == v <==> v < 0x1000
  {
    hide *;
    Imm12Word(w, v, s, w');
    SignedIf((w' >> 23) & 1, w' & 0xFFF, v & 0xFFF, false, u);
    Magnitude12(v, u);
  }

  lemma Imm12Down(w: bv32, v: bv32, a: bv32, s: bv32, w': bv32, u: bv32)
    requires a == 0 - v && w' == (w & 0xFF7F_F000) | (a & 0xFFF) | s && s == 0
    requires u == Signed((w' >> 23) & 1, w' & 0xFFF)
    ensures u == v <==> a < 0x1000
  {
    hide *;
    Imm12Word(w, a, s, w');
    SignedIf((w' >> 23) & 1, w' & 0xFFF, a & 0xFFF, true, u);
    Down12(v, a, a & 0xFFF, u);
  }

  lemma Imm12Reads(w: bv32, v: bv32, a: bv32, s: bv32, w': bv32, u: bv32)
    requires a == Abs(v) && s == UpBit(v, 0x80_0000) && w' == (w & 0xFF7F_F000) | (a & 0xFFF) | s
    requires u == Signed((w' >> 23) & 1, w' & 0xFFF)
    ensures u == v <==> a < 0x1000
  {
    if v >= 0x8000_0000 { Imm12Down(w, v, a, s, w', u); } else { Imm12Up(w, v, s, w', u); }
  }

  lemma Imm12Value(w: bv32, v: bv32, w': bv32, u: bv32)
    requires w' == (w & 0xFF7F_F000) | (Abs(v) & 0xFFF) | UpBit(v, 0x80_0000)
    requires u == Signed((w' >> 23) & 1, w' & 0xFFF)
    ensures u == v <==> Abs(v) < 0x1000
  {
    Imm12Reads(w, v, Abs(v), UpBit(v, 0x80_0000), w', u);
  }

  lemma Imm8Form(w: bv32, a: bv32, s: bv32, w': bv32, u: bv32)
    requires w' == (w & 0xFF7F_F0F0) | (((a >> 4) & 0xF) << 8) | (a & 0xF) | s && (s == 0 || s == 0x80_0000)
    requires u == Signed((w' >> 23) & 1, (((w' >> 8) & 0xF) << 4) | (w' & 0xF))
    ensures u == if s == 0 then 0 - ((((a >> 4) & 0xF) << 4) | (a & 0xF)) else (((a >> 4) & 0xF) << 4) | (a & 0xF)
  {
    Imm8Word(w, a, s, w');
  }

  lemma Imm8Up(w: bv32, v: bv32, s: bv32, w': bv32, u: bv32)
    requires w' == (w & 0xFF7F_F0F0) | (((v >> 4) & 0xF) << 8) | (v & 0xF) | s && s == 0x80_0000
    requires u == Signed((w' >> 23) & 1, (((w' >> 8) & 0xF) << 4) | (w' & 0xF))
    ensures u == v <==> v < 0x100
  {
    Imm8Form(w, v, s, w', u);
    Magnitude8(v, u);
  }

  lemma Imm8Down(w: bv32, v: bv32, a: bv32, s: bv32, w': bv32, u: bv32)
    requires a == 0 - v && w' == (w & 0xFF7F_F0F0) | (((a >> 4) & 0xF) << 8) | (a & 0xF) | s && s == 0
    requires u == Signed((w' >> 23) & 1, (((w' >> 8) & 0xF) << 4) | (w' & 0xF))
    ensures u == v <==> a < 0x100
  {
    Imm8Form(w, a, s, w', u);
    Down8(v, a, (((a >> 4) & 0xF) << 4) | (a & 0xF), u);
  }

  lemma Imm8Reads(w: bv32, v: bv32, a: bv32, s: bv32, w': bv32, u: bv32)
    requires a == Abs(v) && s == UpBit(v, 0x80_0000)
    requires w' == (w & 0xFF7F_F0F0) | (((a >> 4) & 0xF) << 8) | (a & 0xF) | s
    requires u == Signed((w' >> 23) & 1, (((w' >> 8) & 0xF) << 4) | (w' & 0xF))
    ensures u == v <==> a < 0x100
  {
    if v >= 0x8000_0000 { Imm8Down(w, v, a, s, w', u); } else { Imm8Up(w, v, s, w', u); }
  }

  lemma Imm8Value(w: bv32, v: bv32, w': bv32, u: bv32)
    requires w' == (w & 0xFF7F_F0F0) | (((Abs(v) >> 4) & 0xF) << 8) | (Abs(v) & 0xF) | UpBit(v, 0x80_0000)
    requires u == Signed((w' >> 23) & 1, (((w' >> 8) & 0xF) << 4) | (w' & 0xF))
    ensures u == v <==> Abs(v) < 0x100
  {
    Imm8Reads(w, v, Abs(v), UpBit(v, 0x80_0000), w', u);
  }

  lemma Pc12Form(w: bv32, a: bv32, s: bv32, w': bv32, u: bv32)
    requires w' == (w & 0xF000_FF7F) | s | ((a & 0xFFF) << 16) && (s == 0 || s == 0x80)
    requires u == Signed((w' >> 7) & 1, (w' >> 16) & 0xFFF)
    ensures u == if s == 0 then 0 - (a & 0xFFF) else a & 0xFFF
  {
    Pc12Word(w, a, s, w');
  }

  lemma Pc12Up(w: bv32, v: bv32, s: bv32, w': bv32, u: bv32)
    requires w' == (w & 0xF000_FF7F) | s | ((v & 0xFFF) << 16) && s == 0x80
    requires u == Signed((w' >> 7) & 1, (w' >> 16) & 0xFFF)
    ensures u == v <==> v < 0x1000
  {
    Pc12Form(w, v, s, w', u);
    Magnitude12(v, u);
  }

  lemma Pc12Down(w: bv32, v: bv32, a: bv32, s: bv32, w': bv32, u: bv32)
    requires a == 0 - v && w' == (w & 0xF000_FF7F) | s | ((a & 0xFFF) << 16) && s == 0
    requires u == Signed((w' >> 7) & 1, (w' >> 16) & 0xFFF)
    ensures u == v <==> a < 0x1000
  {
    Pc12Form(w, a, s, w', u);
    Down12(v, a, a & 0xFFF, u);
  }

  lemma Pc12Reads(w: bv32, v: bv32, a: bv32, s: bv32, w': bv32, u: bv32)
    requires a == Abs(v) && s == UpBit(v, 0x80) && w' == (w & 0xF000_FF7F) | s | ((a & 0xFFF) << 16)
    requires u == Signed((w' >> 7) & 1, (w' >> 16) & 0xFFF)
    ensures u == v <==> a < 0x1000
  {
    if v >= 0x8000_0000 { Pc12Down(w, v, a, s, w', u); } else { Pc12Up(w, v, s, w', u); }
  }

  lemma Pc12Value(w: bv32, v: bv32, w': bv32, u: bv32)
    requires w' == (w & 0xF000_FF7F) | UpBit(v, 0x80) | ((Abs(v) & 0xFFF) << 16)
    requires u == Signed((w' >> 7) & 1, (w' >> 16) & 0xFFF)
    ensures u == v <==> Abs(v) < 0x1000
  {
    Pc12Reads(w, v, Abs(v), UpBit(v, 0x80), w', u);
  }

  lemma AbsRange12(v: bv32)
    ensures Abs(v) < 0x1000 <==> Within12(v)
  {
    MagnitudeRange12(v, Abs(v));
  }

  lemma AbsRange8(v: bv32)
    ensures Abs(v) < 0x100 <==> Within8(v)
  {
    MagnitudeRange8(v, Abs(v));
  }

  lemma Abs12RoundTrip(w: bv32, v: bv32, symval: bv32, val: bv32, w': bv32)
    requires val == MaskResult(PackResult(v, Abs12), Abs12) && w' == Written(w, Abs12, val, symval)
    ensures Unpacked(w', Abs12) == v <==> Fits(w, Abs12, v, symval)
  {
    hide Abs, UpBit, Signed;
    Imm12Value(w, v, w', Unpacked(w', Abs12));
    AbsRange12(v);
  }

  lemma LdrPcG0RoundTrip(w: bv32, v: bv32, symval: bv32, val: bv32, w': bv32)
    requires val == MaskResult(PackResult(v, LdrPcG0), LdrPcG0) && w' == Written(w, LdrPcG0, val, symval)
    ensures Unpacked(w', LdrPcG0) == v <==> Fits(w, LdrPcG0, v, symval)
  {
    hide Abs, UpBit, Signed;
    Imm12Value(w, v, w', Unpacked(w', LdrPcG0));
    AbsRange12(v);
  }

  lemma LdrsPcG0RoundTrip(w: bv32, v: bv32, symval: bv32, val: bv32, w': bv32)
    requires val == MaskResult(PackResult(v, LdrsPcG0), LdrsPcG0) && w' == Written(w, LdrsPcG0, val, symval)
    ensures Unpacked(w', LdrsPcG0) == v <==> Fits(w, LdrsPcG0, v, symval)
  {
    hide Abs, UpBit, Signed;
    Imm8Value(w, v, w', Unpacked(w', LdrsPcG0));
    AbsRange8(v);
  }

  lemma ThmPc12RoundTrip(w: bv32, v: bv32, symval: bv32, val: bv32, w': bv32)
    requires val == MaskResult(PackResult(v, ThmPc12), ThmPc12) && w' == Written(w, ThmPc12, val, symval)
    ensures Unpacked(w', ThmPc12) == v <==> Fits(w, ThmPc12, v, symval)
  {
    hide Abs, UpBit, Signed;
    Pc12Value(w, v, w', Unpacked(w', ThmPc12));
    AbsRange12(v);
  }

  lemma Packed25(v: bv32)
    ensures Asr1(v) & 0x01FF_FFFF == (v >> 1) & 0x01FF_FFFF
  {
    Low25(v, Asr1(v));
  }

  lemma BaseIsClear(w: bv32, symval: bv32)
    ensures CallBase(w, symval) & 0xFF_FFFF == 0
  {
  }

  /** The word of a BL keeps its top byte; that of a BLX has the value's half in bit 24. */
  lemma BlReads(b: bv32, p: bv32, w': bv32)
    requires b & 0xFF_FFFF == 0 && !IsBlx(b) && p & 0xFF00_0000 == 0 && w' == b | p
    ensures w' & 0xFF_FFFF == p && HalfBit(w') == 0
  {
    BlWord(b, p, w');
  }

  lemma BlxReads(b: bv32, p: bv32, h: bv32, w': bv32)
    requires b & 0xFF_FFFF == 0 && IsBlx(b) && p & 0xFF00_0000 == 0 && h <= 1
    requires w' == ((b & 0xFEFF_FFFF) | (h << 24)) | p
    ensures w' & 0xFF_FFFF == p && HalfBit(w') == h
  {
    BlxWord(b, p, h, w');
  }

  lemma BlValue(b: bv32, v: bv32, q: bv32, w': bv32)
    requires b & 0xFF_FFFF == 0 && !IsBlx(b) && q == (v >> 2) & 0xFF_FFFF && q & 0xFF00_0000 == 0 && w' == b | q
    ensures UnpackCall(w') == v <==> (v >> 25 == 0 || v >> 25 == 0x7F) && v & 3 == 0
  {
    hide IsBlx, HalfBit, UnpackCall;
    BlReads(b, q, w');
    CallReads(w', v, q);
  }

  lemma BlxHalfValue(b: bv32, v: bv32, q: bv32, h: bv32, w': bv32)
    requires b & 0xFF_FFFF == 0 && IsBlx(b) && q == (v >> 2) & 0xFF_FFFF && q & 0xFF00_0000 == 0
    requires h == (v >> 1) & 1 && w' == ((b & 0xFEFF_FFFF) | (h << 24)) | q
    ensures UnpackCall(w') == v <==> (v >> 25 == 0 || v >> 25 == 0x7F) && v & 1 == 0
  {
    hide IsBlx, HalfBit, UnpackCall;
    BlxValue(v, h);
    BlxReads(b, q, h, w');
    CallReads(w', v, q);
  }

  lemma CallParts(v: bv32, p: bv32, q: bv32, h: bv32)
    requires p == Asr1(v) & 0x01FF_FFFF && q == p >> 1 && h == p & 1
    ensures q == (v >> 2) & 0xFF_FFFF && h == (v >> 1) & 1 && q & 0xFF00_0000 == 0
  {
    hide Asr1;
    Packed25(v);
    PackedCall(v, p, q, h);
  }

  lemma BlInserted(b: bv32, h: bv32, q: bv32)
    requires !IsBlx(b)
    ensures InsertCall(b, h, q) == b | q
  {
    hide IsBlx;
  }

  lemma BlxInserted(b: bv32, h: bv32, q: bv32)
    requires IsBlx(b)
    ensures InsertCall(b, h, q) == ((b & 0xFEFF_FFFF) | (h << 24)) | q
  {
    hide IsBlx;
  }

  lemma CallFinal(b: bv32, v: bv32, q: bv32, h: bv32, w': bv32)
    requires b & 0xFF_FFFF == 0 && q == (v >> 2) & 0xFF_FFFF && h == (v >> 1) & 1 && q & 0xFF00_0000 == 0
    requires w' == InsertCall(b, h, q)
    ensures UnpackCall(w') == v <==> (v >> 25 == 0 || v >> 25 == 0x7F) && v & (if IsBlx(b) then 1 else 3) == 0
  {
    hide IsBlx, UnpackCall, InsertCall;
    if IsBlx(b) {
      BlxInserted(b, h, q);
      BlxHalfValue(b, v, q, h, w');
    } else {
      BlInserted(b, h, q);
      BlValue(b, v, q, w');
    }
  }

  lemma BaseIsBlx(w: bv32, symval: bv32)
    ensures IsBlx(CallBase(w, symval)) <==> EndsAsBlx(w, symval)
  {
    BlxBase(w, symval & 1 == 1, CallBase(w, symval));
  }

  lemma CallWord(w: bv32, v: bv32, p: bv32, symval: bv32, w': bv32)
    requires p == Asr1(v) & 0x01FF_FFFF && w' == WriteCall(w, p, symval)
    ensures UnpackCall(w') == v <==>
            (v >> 25 == 0 || v >> 25 == 0x7F) && v & (if EndsAsBlx(w, symval) then 1 else 3) == 0
  {
    hide IsBlx, CallBase, InsertCall, UnpackCall, Asr1, EndsAsBlx;
    BaseIsBlx(w, symval);
    CallParts(v, p, p >> 1, p & 1);
    BaseIsClear(w, symval);
    CallFinal(CallBase(w, symval), v, p >> 1, p & 1, w');
  }

  lemma CallRoundTrip(w: bv32, v: bv32, symval: bv32, val: bv32, w': bv32)
    requires val == MaskResult(PackResult(v, Call), Call) && w' == Written(w, Call, val, symval)
    ensures Unpacked(w', Call) == v <==> Fits(w, Call, v, symval)
  {
    hide IsBlx, CallBase, UnpackCall, Asr1, WriteCall, EndsAsBlx;
    CallWord(w, v, val, symval, w');
  }

  lemma BranchBaseIsClear(w: bv32, toArm: bool)
    ensures BranchBase(w, toArm) & 0x2FFF_07FF == 0
  {
  }

  /** The fields of a branch's value, and their sizes. */
  lemma BranchParts(v: bv32, s: bv32, j1: bv32, j2: bv32, x: bv32, y: bv32)
    requires s == (v >> 23) & 1 && j1 == Toggled(v >> 22, s) && j2 == Toggled(v >> 21, s)
    requires x == (v >> 11) & 0x3FF && y == v & 0x7FF
    ensures s <= 1 && j1 <= 1 && j2 <= 1 && x <= 0x3FF && y <= 0x7FF
  {
    ThumbBranchSizes(v, s, j1, j2, x, y);
  }

  lemma BranchJoins(v: bv32, s: bv32, j1: bv32, j2: bv32, x: bv32, y: bv32)
    requires s == (v >> 23) & 1 && j1 == Toggled(v >> 22, s) && j2 == Toggled(v >> 21, s)
    requires x == (v >> 11) & 0x3FF && y == v & 0x7FF
    ensures BranchJoined(s, j1, j2, x, y) == v & 0xFF_FFFF
  {
    ThumbBranchJoined(v, s, j1, j2, x, y, BranchJoined(s, j1, j2, x, y));
  }

  lemma BranchLaid(b: bv32, s: bv32, j1: bv32, j2: bv32, x: bv32, y: bv32, w': bv32)
    requires b & 0x2FFF_07FF == 0 && s <= 1 && j1 <= 1 && j2 <= 1 && x <= 0x3FF && y <= 0x7FF
    requires w' == b | BranchFields(s, j1, j2, x, y)
    ensures (w' >> 10) & 1 == s && (w' >> 29) & 1 == j1 && (w' >> 27) & 1 == j2
    ensures w' & 0x3FF == x && (w' >> 16) & 0x7FF == y
  {
    ThumbBranchWord(b, s, j1, j2, x, y, BranchFields(s, j1, j2, x, y), w');
  }

  lemma BranchTaken(s: bv32, j1: bv32, j2: bv32, x: bv32, y: bv32, w': bv32)
    requires (w' >> 10) & 1 == s && (w' >> 29) & 1 == j1 && (w' >> 27) & 1 == j2
    requires w' & 0x3FF == x && (w' >> 16) & 0x7FF == y
    ensures BranchValue(w') == BranchJoined(s, j1, j2, x, y)
  {
    hide BranchJoined;
  }

  lemma BranchForm(v: bv32, s: bv32, j1: bv32, j2: bv32, x: bv32, y: bv32)
    requires s == (v >> 23) & 1 && j1 == Toggled(v >> 22, s) && j2 == Toggled(v >> 21, s)
    requires x == (v >> 11) & 0x3FF && y == v & 0x7FF
    ensures BranchBits(v) == BranchFields(s, j1, j2, x, y)
  {
    hide Toggled, BranchFields;
  }

  lemma BranchReads(b: bv32, v: bv32, w': bv32)
    requires b & 0x2FFF_07FF == 0 && w' == b | BranchBits(v)
    ensures BranchValue(w') == v & 0xFF_FFFF
  {
    hide *;
    var s, x, y := (v >> 23) & 1, (v >> 11) & 0x3FF, v & 0x7FF;
    var j1, j2 := Toggled(v >> 22, s), Toggled(v >> 21, s);
    BranchForm(v, s, j1, j2, x, y);
    BranchParts(v, s, j1, j2, x, y);
    BranchLaid(b, s, j1, j2, x, y, w');
    BranchTaken(s, j1, j2, x, y, w');
    BranchJoins(v, s, j1, j2, x, y);
  }

  lemma Reads25(v: bv32, f: bv32)
    requires f == v & 0x01FF_FFFE
    ensures SignExtend(f, 0x100_0000) == v <==> (v >> 24 == 0 || v >> 24 == 0xFF) && v & 1 == 0
  {
    Extended25(v, f, SignExtend(f, 0x100_0000));
  }

  lemma BranchUnpacks(w: bv32, f: bv32)
    requires f == BranchValue(w) << 1
    ensures UnpackThumbBranch(w) == SignExtend(f, 0x100_0000)
  {
    hide BranchValue, SignExtend;
  }

  /** A branch whose value is even or may stay odd. */
  lemma EvenBranchValue(b: bv32, v: bv32, p: bv32, w': bv32, f: bv32)
    requires b & 0x2FFF_07FF == 0 && p == (v >> 1) & 0x01FF_FFFF && w' == b | BranchBits(p) && f == (p & 0xFF_FFFF) << 1
    ensures UnpackThumbBranch(w') == v <==> (v >> 24 == 0 || v >> 24 == 0xFF) && v & 1 == 0
    ensures p & 1 == 0 <==> v & 2 == 0
  {
    hide *;
    BranchReads(b, p, w');
    EvenBranch(v, p, f);
    BranchUnpacks(w', f);
    Reads25(v, f);
  }

  lemma OddReads(p: bv32, q: bv32, f: bv32)
    requires p & 1 == 1 && q == p + 1 && f == (q & 0xFF_FFFF) << 1
    ensures SignExtend(f, 0x100_0000) & 3 == 0
  {
    OddBranch(p, q, f, SignExtend(f, 0x100_0000));
  }

  /** A branch to ARM code whose value was odd reads back as a multiple of 4. */
  lemma OddBranchValue(b: bv32, p: bv32, q: bv32, w': bv32, f: bv32)
    requires b & 0x2FFF_07FF == 0 && p & 1 == 1 && q == p + 1 && w' == b | BranchBits(q) && f == (q & 0xFF_FFFF) << 1
    ensures UnpackThumbBranch(w') & 3 == 0
  {
    hide *;
    BranchReads(b, q, w');
    BranchUnpacks(w', f);
    OddReads(p, q, f);
  }

  lemma ThumbBranchKept(w: bv32, v: bv32, p: bv32, w': bv32)
    requires p == Asr1(v) & 0x01FF_FFFF && w' == WriteThumbBranch(w, p, false)
    ensures UnpackThumbBranch(w') == v <==> (v >> 24 == 0 || v >> 24 == 0xFF) && v & 1 == 0
  {
    hide Asr1, BranchBase, BranchBits, UnpackThumbBranch;
    Packed25(v);
    BranchBaseIsClear(w, false);
    EvenBranchValue(BranchBase(w, false), v, p, w', (p & 0xFF_FFFF) << 1);
  }

  lemma EvenedWord(w: bv32, p: bv32)
    ensures p & 1 == 1 ==> WriteThumbBranch(w, p, true) == BranchBase(w, true) | BranchBits(p + 1)
    ensures p & 1 == 0 ==> WriteThumbBranch(w, p, true) == BranchBase(w, true) | BranchBits(p)
  {
    hide BranchBase, BranchBits;
  }

  lemma NotMultiple(v: bv32, u: bv32)
    requires v & 2 != 0 && u & 3 == 0
    ensures u != v && v & 3 != 0
  {
  }

  lemma ThumbBranchOdd(b: bv32, v: bv32, p: bv32, q: bv32, w': bv32)
    requires b & 0x2FFF_07FF == 0 && p == (v >> 1) & 0x01FF_FFFF && p & 1 == 1 && q == p + 1 && w' == b | BranchBits(q)
    ensures UnpackThumbBranch(w') != v && v & 3 != 0
  {
    hide *;
    EvenBranch(v, p, (p & 0xFF_FFFF) << 1);
    OddBranchValue(b, p, q, w', (q & 0xFF_FFFF) << 1);
    NotMultiple(v, UnpackThumbBranch(w'));
  }

  lemma ThumbBranchAligned(b: bv32, v: bv32, p: bv32, w': bv32)
    requires b & 0x2FFF_07FF == 0 && p == (v >> 1) & 0x01FF_FFFF && p & 1 == 0 && w' == b | BranchBits(p)
    ensures UnpackThumbBranch(w') == v <==> (v >> 24 == 0 || v >> 24 == 0xFF) && v & 3 == 0
  {
    hide *;
    EvenBranchValue(b, v, p, w', (p & 0xFF_FFFF) << 1);
    LowBits(v);
  }

  lemma ThumbBranchEvened(w: bv32, v: bv32, p: bv32, w': bv32)
    requires p == Asr1(v) & 0x01FF_FFFF && w' == WriteThumbBranch(w, p, true)
    ensures UnpackThumbBranch(w') == v <==> (v >> 24 == 0 || v >> 24 == 0xFF) && v & 3 == 0
  {
    hide *;
    Packed25(v);
    BranchBaseIsClear(w, true);
    EvenedWord(w, p);
    OneBit(p);
    if p & 1 == 1 {
      ThumbBranchOdd(BranchBase(w, true), v, p, p + 1, w');
    } else {
      ThumbBranchAligned(BranchBase(w, true), v, p, w');
    }
  }

  lemma OneBit(p: bv32)
    ensures p & 1 == 1 || p & 1 == 0
  {
  }

  lemma ThmCallPacks(w: bv32, v: bv32, symval: bv32, val: bv32, w': bv32)
    requires val == MaskResult(PackResult(v, ThmCall), ThmCall) && w' == Written(w, ThmCall, val, symval)
    ensures val == Asr1(v) & 0x01FF_FFFF && w' == WriteThumbBranch(w, val, symval & 1 != 1)
    ensures Unpacked(w', ThmCall) == UnpackThumbBranch(w')
  {
    hide Asr1, WriteThumbBranch, UnpackThumbBranch;
  }

  lemma ThmCallFits(w: bv32, v: bv32, symval: bv32)
    ensures Fits(w, ThmCall, v, symval)
       <==> (v >> 24 == 0 || v >> 24 == 0xFF) && v & (if symval & 1 == 1 then 1 else 3) == 0
  {
  }

  lemma ThmCallRoundTrip(w: bv32, v: bv32, symval: bv32, val: bv32, w': bv32)
    requires val == MaskResult(PackResult(v, ThmCall), ThmCall) && w' == Written(w, ThmCall, val, symval)
    ensures Unpacked(w', ThmCall) == v <==> Fits(w, ThmCall, v, symval)
  {
    hide *;
    ThmCallPacks(w, v, symval, val, w');
    ThmCallFits(w, v, symval);
    if symval & 1 == 1 { ThumbBranchKept(w, v, val, w'); } else { ThumbBranchEvened(w, v, val, w'); }
  }

  lemma ThmJump24RoundTrip(w: bv32, v: bv32, symval: bv32, val: bv32, w': bv32)
    requires val == MaskResult(PackResult(v, ThmJump24), ThmJump24) && w' == Written(w, ThmJump24, val, symval)
    ensures Unpacked(w', ThmJump24) == v <==> Fits(w, ThmJump24, v, symval)
  {
    hide Asr1, WriteThumbBranch, UnpackThumbBranch;
    ThumbBranchKept(w, v, val, w');
  }

  lemma Pc24RoundTrip(w: bv32, v: bv32, symval: bv32, val: bv32, w': bv32)
    requires val == MaskResult(PackResult(v, Pc24), Pc24) && w' == Written(w, Pc24, val, symval)
    ensures Unpacked(w', Pc24) == v <==> Fits(w, Pc24, v, symval)
  {
    hide IsBlx, CallBase, UnpackCall, Asr1, WriteCall, EndsAsBlx;
    CallWord(w, v, val, symval, w');
  }

  lemma WordRoundTrip(w: bv32, r: RelocType, v: bv32, symval: bv32, val: bv32, w': bv32)
    requires r.Abs32? || r.Rel32?
    requires val == MaskResult(PackResult(v, r), r) && w' == Written(w, r, val, symval)
    ensures Unpacked(w', r) == v <==> Fits(w, r, v, symval)
  {
  }

  lemma ArmRoundTrips(w: bv32, r: RelocType, v: bv32, symval: bv32, val: bv32, w': bv32)
    requires val == MaskResult(PackResult(v, r), r) && w' == Written(w, r, val, symval)
    requires r in {Abs32, Rel32, Abs16, Abs8, Pc24, Call, Jump24, Abs12, Movw, Movt}
    ensures Unpacked(w', r) == v <==> Fits(w, r, v, symval)
  {
    hide *;
    match r
    case Abs32 | Rel32 => WordRoundTrip(w, r, v, symval, val, w');
    case Abs16 => Abs16RoundTrip(w, v, symval, val, w');
    case Abs8 => Abs8RoundTrip(w, v, symval, val, w');
    case Pc24 => Pc24RoundTrip(w, v, symval, val, w');
    case Call => CallRoundTrip(w, v, symval, val, w');
    case Jump24 => JumpRoundTrip(w, v, symval, val, w');
    case Abs12 => Abs12RoundTrip(w, v, symval, val, w');
    case Movw => MovwRoundTrip(w, v, symval, val, w');
    case Movt => MovtRoundTrip(w, v, symval, val, w');
  }

  lemma ThumbRoundTrips(w: bv32, r: RelocType, v: bv32, symval: bv32, val: bv32, w': bv32)
    requires val == MaskResult(PackResult(v, r), r) && w' == Written(w, r, val, symval)
    requires r in {ThmCall, ThmJump24, ThmJump11, ThmJump8, ThmJump6, ThmAbs5, ThmPc8, ThmPc12}
    ensures Unpacked(w', r) == v <==> Fits(w, r, v, symval)
  {
    hide *;
    match r
    case ThmCall => ThmCallRoundTrip(w, v, symval, val, w');
    case ThmJump24 => ThmJump24RoundTrip(w, v, symval, val, w');
    case ThmJump11 => Jump11RoundTrip(w, v, symval, val, w');
    case ThmJump8 => Jump8RoundTrip(w, v, symval, val, w');
    case ThmJump6 => ThmJump6RoundTrip(w, v, symval, val, w');
    case ThmAbs5 => ThmAbs5RoundTrip(w, v, symval, val, w');
    case ThmPc8 => ThmPc8RoundTrip(w, v, symval, val, w');
    case ThmPc12 => ThmPc12RoundTrip(w, v, symval, val, w');
  }

  lemma AllRoundTrips(w: bv32, r: RelocType, v: bv32, symval: bv32, val: bv32, w': bv32)
    requires val == MaskResult(PackResult(v, r), r) && w' == Written(w, r, val, symval)
    ensures Unpacked(w', r) == v <==> Fits(w, r, v, symval)
  {
    hide *;
    match r
    case ThmMovw => ThmMovwRoundTrip(w, v, symval, val, w');
    case ThmMovt => ThmMovtRoundTrip(w, v, symval, val, w');
    case LdrPcG0 => LdrPcG0RoundTrip(w, v, symval, val, w');
    case LdrsPcG0 => LdrsPcG0RoundTrip(w, v, symval, val, w');
    case ThmCall | ThmJump24 | ThmJump11 | ThmJump8 | ThmJump6 | ThmAbs5 | ThmPc8 | ThmPc12 =>
      ThumbRoundTrips(w, r, v, symval, val, w');
    case _ => ArmRoundTrips(w, r, v, symval, val, w');
  }

  /** For every relocation type, word, value and symbol: packing, masking and writing the value and then
      unpacking the field gives the value back exactly when the field can hold it. */
  lemma RoundTrip(w: bv32, r: RelocType, v: bv32, symval: bv32)
    ensures Unpacked(Relocated(w, r, v, symval), r) == v <==> Fits(w, r, v, symval)
  {
    hide Unpacked, Written, MaskResult, PackResult, Fits;
    var val := MaskResult(PackResult(v, r), r);
    AllRoundTrips(w, r, v, symval, val, Written(w, r, val, symval));
  }

  lemma MovwCarries(w: bv32, v: bv32, symval: bv32, val: bv32, w': bv32)
    requires val == MaskResult(PackResult(v, Movw), Movw) && w' == Written(w, Movw, val, symval)
    ensures Unpacked(w', Movw) == SignExtend(v & 0xFFFF, 0x8000)
  {
    hide *;
    MovwPacks(v, val);
    MovwWrites(w, symval, val, w');
    MovUnpacks(w');
    MovwReads(w, v, val, w', Unpacked(w', Movw));
  }

  lemma ThmMovwCarries(w: bv32, v: bv32, symval: bv32, val: bv32, w': bv32)
    requires val == MaskResult(PackResult(v, ThmMovw), ThmMovw) && w' == Written(w, ThmMovw, val, symval)
    ensures Unpacked(w', ThmMovw) == SignExtend(v & 0xFFFF, 0x8000)
  {
    hide *;
    ThmMovwPacks(v, val);
    ThmMovwWrites(w, symval, val, w');
    ThmMovUnpacks(w');
    ThmMovwReads(w, v, val, w', Unpacked(w', ThmMovw));
  }

  lemma MovtCarries(w: bv32, v: bv32, symval: bv32, val: bv32, w': bv32)
    requires val == MaskResult(PackResult(v, Movt), Movt) && w' == Written(w, Movt, val, symval)
    ensures Unpacked(w', Movt) == Asr16(v)
  {
    hide *;
    MovtPacks(v, val);
    MovtWrites(w, symval, val, w');
    MovUnpacks(w');
    MovtReads(w, v, val, w', Unpacked(w', Movt));
  }

  lemma ThmMovtCarries(w: bv32, v: bv32, symval: bv32, val: bv32, w': bv32)
    requires val == MaskResult(PackResult(v, ThmMovt), ThmMovt) && w' == Written(w, ThmMovt, val, symval)
    ensures Unpacked(w', ThmMovt) == Asr16(v)
  {
    hide *;
    ThmMovtPacks(v, val);
    ThmMovtWrites(w, symval, val, w');
    ThmMovUnpacks(w');
    ThmMovtReads(w, v, val, w', Unpacked(w', ThmMovt));
  }

  lemma ExtendedLow(v: bv32, u: bv32)
    requires u == SignExtend(v & 0xFFFF, 0x8000)
    ensures u & 0xFFFF == v & 0xFFFF && Signed16(u)
  {
    Extension16(v, v & 0xFFFF, u);
  }

  lemma ExtendedHigh(v: bv32, u: bv32)
    requires u == Asr16(v)
    ensures u & 0xFFFF == v >> 16 && Signed16(u)
  {
    UpperHalf(v, u);
  }

  lemma MovCarries(w: bv32, r: RelocType, v: bv32, symval: bv32)
    requires r.Movw? || r.ThmMovw? || r.Movt? || r.ThmMovt?
    ensures Unpacked(Relocated(w, r, v, symval), r)
         == if r.Movw? || r.ThmMovw? then SignExtend(v & 0xFFFF, 0x8000) else Asr16(v)
  {
    hide Unpacked, Written, MaskResult, PackResult, SignExtend, Asr16;
    var val := MaskResult(PackResult(v, r), r);
    var w' := Written(w, r, val, symval);
    match r
    case Movw => MovwCarries(w, v, symval, val, w');
    case ThmMovw => ThmMovwCarries(w, v, symval, val, w');
    case Movt => MovtCarries(w, v, symval, val, w');
    case ThmMovt => ThmMovtCarries(w, v, symval, val, w');
  }

  /** A MOVW carries its value's lower half, a MOVT its upper half, both read back as signed 16-bit numbers. */
  lemma MovReads(w: bv32, r: RelocType, v: bv32, symval: bv32)
    requires r.Movw? || r.ThmMovw? || r.Movt? || r.ThmMovt?
    ensures Signed16(Unpacked(Relocated(w, r, v, symval), r))
    ensures Unpacked(Relocated(w, r, v, symval), r) & 0xFFFF == if r.Movw? || r.ThmMovw? then v & 0xFFFF else v >> 16
  {
    hide *;
    MovCarries(w, r, v, symval);
    var u := Unpacked(Relocated(w, r, v, symval), r);
    if r.Movw? || r.ThmMovw? { ExtendedLow(v, u); } else { ExtendedHigh(v, u); }
  }
}
