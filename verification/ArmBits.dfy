/** Facts about 32-bit words behind the relocation codec, each over plain words so that it is decided bit by
    bit. */
module ArmBits {
  lemma Low24(v: bv32, a: bv32)
    requires a == (v >> 2) | (if v >= 0x8000_0000 then 0xC000_0000 else 0)
    ensures a & 0x00FF_FFFF == (v >> 2) & 0x00FF_FFFF
  {
  }

  lemma Top24(v: bv32, p: bv32)
    requires p == (v >> 2) & 0x00FF_FFFF
    ensures p & 0xFF00_0000 == 0
  {
  }

  /** The seven top bits are equal. */
  lemma Range26(v: bv32, a: bv32)
    requires a == (v >> 25) | (if v >= 0x8000_0000 then 0xFFFF_FF80 else 0)
    ensures a == 0 || a == 0xFFFF_FFFF <==> v >> 25 == 0 || v >> 25 == 0x7F
  {
  }

  lemma Range25(v: bv32, a: bv32)
    requires a == (v >> 24) | (if v >= 0x8000_0000 then 0xFFFF_FF00 else 0)
    ensures a == 0 || a == 0xFFFF_FFFF <==> v >> 24 == 0 || v >> 24 == 0xFF
  {
  }

  lemma Range26Shifted(v: bv32, x: bv32)
    requires x == v + 0x200_0000
    ensures x < 0x400_0000 <==> v >> 25 == 0 || v >> 25 == 0x7F
  {
  }

  lemma Range25Shifted(v: bv32, x: bv32)
    requires x == v + 0x100_0000
    ensures x < 0x200_0000 <==> v >> 24 == 0 || v >> 24 == 0xFF
  {
  }

  lemma Imm24(w: bv32, p: bv32, w': bv32)
    requires w' == (w & 0xFF00_0000) | p && p & 0xFF00_0000 == 0
    ensures w' & 0xFF_FFFF == p && w' >> 24 == w >> 24
  {
  }

  lemma Scaled26(v: bv32, p: bv32, h: bv32, f: bv32)
    requires p == (v >> 2) & 0xFF_FFFF && h <= 1 && f == ((p << 1) + h) << 1
    ensures f == (v & 0x03FF_FFFC) | (h << 1)
  {
  }

  /** Sign extension gives v back when v's other high bits are its sign. */
  lemma Extended26(v: bv32, h: bv32, f: bv32, r: bv32)
    requires f == (v & 0x03FF_FFFC) | (h << 1) && h <= 1 && r == f | (0 - (f & 0x200_0000))
    ensures r == v <==> (v >> 25 == 0 || v >> 25 == 0x7F) && v & 3 == h << 1
  {
  }

  lemma Bit24(w: bv32, h: bv32)
    requires h == if (w >> 24) & 0xFE == 0xFA then (w >> 24) & 1 else 0
    ensures h <= 1 && h << 1 == (if w >> 24 == 0xFB then 2 else 0)
  {
  }

  lemma Extended25(v: bv32, f: bv32, u: bv32)
    requires f == v & 0x01FF_FFFE && u == f | (0 - (f & 0x100_0000))
    ensures u == v <==> (v >> 24 == 0 || v >> 24 == 0xFF) && v & 1 == 0
  {
  }

  lemma Extended16(v: bv32, f: bv32, u: bv32)
    requires f == v & 0xFFFF && u == f | (0 - (f & 0x8000))
    ensures u == v <==> v >> 15 == 0 || v >> 15 == 0x1_FFFF
  {
  }

  lemma Extension16(v: bv32, f: bv32, u: bv32)
    requires f == v & 0xFFFF && u == f | (0 - (f & 0x8000))
    ensures u & 0xFFFF == f && (u >> 15 == 0 || u >> 15 == 0x1_FFFF)
  {
  }

  lemma Extended12(v: bv32, f: bv32, u: bv32)
    requires f == v & 0xFFE && u == f | (0 - (f & 0x800))
    ensures u == v <==> (v >> 11 == 0 || v >> 11 == 0x1F_FFFF) && v & 1 == 0
  {
  }

  lemma Extended9(v: bv32, f: bv32, u: bv32)
    requires f == v & 0x1FE && u == f | (0 - (f & 0x100))
    ensures u == v <==> (v >> 8 == 0 || v >> 8 == 0xFF_FFFF) && v & 1 == 0
  {
  }

  lemma Extended8(v: bv32, f: bv32, u: bv32)
    requires f == v & 0xFF && u == f | (0 - (f & 0x80))
    ensures u == v <==> v >> 7 == 0 || v >> 7 == 0x1FF_FFFF
  {
  }

  lemma Range16(v: bv32, x: bv32)
    requires x == v + 0x8000
    ensures x < 0x1_0000 <==> v >> 15 == 0 || v >> 15 == 0x1_FFFF
  {
  }

  lemma Range12(v: bv32, x: bv32)
    requires x == v + 0x800
    ensures x < 0x1000 <==> v >> 11 == 0 || v >> 11 == 0x1F_FFFF
  {
  }

  lemma Range9(v: bv32, x: bv32)
    requires x == v + 0x100
    ensures x < 0x200 <==> v >> 8 == 0 || v >> 8 == 0xFF_FFFF
  {
  }

  lemma Range8(v: bv32, x: bv32)
    requires x == v + 0x80
    ensures x < 0x100 <==> v >> 7 == 0 || v >> 7 == 0x1FF_FFFF
  {
  }

  lemma Half(w: bv32, v: bv32, p: bv32, w': bv32)
    requires p == v & 0xFFFF && w' == (w & 0xFFFF_0000) | (p & 0xFFFF)
    ensures w' & 0xFFFF == v & 0xFFFF
  {
  }

  lemma Byte(w: bv32, v: bv32, p: bv32, w': bv32)
    requires p == v & 0xFF && w' == (w & 0xFFFF_FF00) | (p & 0xFF)
    ensures w' & 0xFF == v & 0xFF
  {
  }

  lemma Low11(v: bv32, a: bv32)
    requires a == (v >> 1) | (if v >= 0x8000_0000 then 0x8000_0000 else 0)
    ensures a & 0x7FF == (v >> 1) & 0x7FF
  {
  }

  lemma Low8(v: bv32, a: bv32)
    requires a == (v >> 1) | (if v >= 0x8000_0000 then 0x8000_0000 else 0)
    ensures a & 0xFF == (v >> 1) & 0xFF
  {
  }

  lemma Jump11Word(w: bv32, v: bv32, p: bv32, w': bv32)
    requires p == (v >> 1) & 0x7FF && w' == (w & 0xFFFF_F800) | (p & 0xFFFF)
    ensures (w' & 0x7FF) << 1 == v & 0xFFE
  {
  }

  lemma Jump8Word(w: bv32, v: bv32, p: bv32, w': bv32)
    requires p == (v >> 1) & 0xFF && w' == (w & 0xFFFF_FF00) | (p & 0xFFFF)
    ensures (w' & 0xFF) << 1 == v & 0x1FE
  {
  }

  lemma MovWord(w: bv32, p: bv32, w': bv32, f: bv32)
    requires p & 0xFFFF_0000 == 0 && w' == (w & 0xFFF0_F000) | (p & 0xFFF) | (((p >> 12) & 0xFF) << 16)
    requires f == (((w' >> 16) & 0xF) << 12) | (w' & 0xFFF)
    ensures f == p
  {
  }

  lemma ThumbMovWord(w: bv32, p: bv32, w': bv32, f: bv32)
    requires p & 0xFFFF_0000 == 0
    requires w' == (w & 0x8F00_FBF0) | (((p >> 11) & 1) << 10) | ((p >> 12) & 0xFF)
                   | (((p >> 8) & 7) << 28) | ((p & 0xFF) << 16)
    requires f == ((w' & 0xF) << 12) | (((w' >> 10) & 1) << 11) | (((w' >> 28) & 7) << 8) | ((w' >> 16) & 0xFF)
    ensures f == p
  {
  }

  lemma LowHalf(v: bv32, p: bv32)
    requires p == v & 0xFFFF
    ensures p & 0xFFFF_0000 == 0
  {
  }

  /** v and its upper half are the same number for 0 and -1 only. */
  lemma HighIsWhole(v: bv32, a: bv32)
    requires a == (v >> 16) | (if v >= 0x8000_0000 then 0xFFFF_0000 else 0)
    ensures v == a <==> v == 0 || v == 0xFFFF_FFFF
  {
  }

  lemma UpperHalf(v: bv32, a: bv32)
    requires a == (v >> 16) | (if v >= 0x8000_0000 then 0xFFFF_0000 else 0)
    ensures a & 0xFFFF == v >> 16 && (a >> 15 == 0 || a >> 15 == 0x1_FFFF)
  {
  }

  lemma HighHalf(v: bv32, a: bv32, p: bv32)
    requires a == (v >> 16) | (if v >= 0x8000_0000 then 0xFFFF_0000 else 0) && p == a & 0xFFFF
    ensures p == v >> 16 && p & 0xFFFF_0000 == 0
  {
  }

  lemma HighNegative(v: bv32, f: bv32)
    requires f == v >> 16 && v >= 0x8000_0000
    ensures f | (0 - (f & 0x8000)) == (v >> 16) | 0xFFFF_0000
  {
  }

  lemma HighPositive(v: bv32, f: bv32)
    requires f == v >> 16 && v < 0x8000_0000
    ensures f | (0 - (f & 0x8000)) == v >> 16
  {
  }

  lemma Low6(v: bv32, a: bv32)
    requires a == (v >> 1) | (if v >= 0x8000_0000 then 0x8000_0000 else 0)
    ensures a & 0x3F == (v >> 1) & 0x3F
  {
  }

  lemma Low5(v: bv32, a: bv32)
    requires a == (v >> 2) | (if v >= 0x8000_0000 then 0xC000_0000 else 0)
    ensures a & 0x1F == (v >> 2) & 0x1F
  {
  }

  lemma Low8Words(v: bv32, a: bv32)
    requires a == (v >> 2) | (if v >= 0x8000_0000 then 0xC000_0000 else 0)
    ensures a & 0xFF == (v >> 2) & 0xFF
  {
  }

  lemma Jump6Word(w: bv32, v: bv32, p: bv32, w': bv32, f: bv32)
    requires p == (v >> 1) & 0x3F && w' == (w & 0xFFFF_FD07) | (((p >> 5) & 1) << 9) | ((p & 0x1F) << 3)
    requires f == ((((w' >> 9) & 1) << 5) | ((w' >> 3) & 0x1F)) << 1
    ensures f == v & 0x7E
  {
  }

  lemma Minus4(v: bv32, y: bv32)
    ensures y - 4 == v <==> y == v + 4
  {
  }

  lemma Offset7(v: bv32, f: bv32, x: bv32, y: bv32)
    requires f == v & 0x7E && x == v + 4 && y == (f + 4) & 0x7F
    ensures y == x <==> x < 0x80 && v & 1 == 0
  {
  }

  lemma Offset10(v: bv32, f: bv32, x: bv32, y: bv32)
    requires f == v & 0x3FC && x == v + 4 && y == (f + 4) & 0x3FF
    ensures y == x <==> x < 0x400 && v & 3 == 0
  {
  }

  lemma Pc8Word(w: bv32, v: bv32, p: bv32, w': bv32, f: bv32)
    requires p == (v >> 2) & 0xFF && w' == (w & 0xFFFF_FF00) | (p & 0xFFFF) && f == (w' & 0xFF) << 2
    ensures f == v & 0x3FC
  {
  }

  lemma Abs5Word(w: bv32, v: bv32, p: bv32, w': bv32, u: bv32)
    requires p == (v >> 2) & 0x1F && w' == (w & 0xFFFF_F83F) | ((p << 6) & 0xFFFF) && u == ((w' >> 6) & 0x1F) << 2
    ensures u == v <==> v < 0x80 && v & 3 == 0
  {
  }

  lemma Negation(v: bv32, m: bv32)
    ensures 0 - m == v <==> m == 0 - v
  {
  }

  lemma Magnitude12(a: bv32, m: bv32)
    requires m == a & 0xFFF
    ensures m == a <==> a < 0x1000
  {
  }

  lemma Magnitude8(a: bv32, m: bv32)
    requires m == (((a >> 4) & 0xF) << 4) | (a & 0xF)
    ensures m == a <==> a < 0x100
  {
  }

  lemma Down12(v: bv32, a: bv32, m: bv32, u: bv32)
    requires a == 0 - v && m == a & 0xFFF && u == 0 - m
    ensures u == v <==> a < 0x1000
  {
    Negation(v, m);
    Magnitude12(a, m);
  }

  lemma Down8(v: bv32, a: bv32, m: bv32, u: bv32)
    requires a == 0 - v && m == (((a >> 4) & 0xF) << 4) | (a & 0xF) && u == 0 - m
    ensures u == v <==> a < 0x100
  {
    Negation(v, m);
    Magnitude8(a, m);
  }

  /** The immediate fields, with the up bit set (s) or clear. */
  lemma Imm12Word(w: bv32, a: bv32, s: bv32, w': bv32)
    requires w' == (w & 0xFF7F_F000) | (a & 0xFFF) | s && (s == 0 || s == 0x80_0000)
    ensures w' & 0xFFF == a & 0xFFF && ((w' >> 23) & 1 == 1 <==> s != 0)
  {
  }

  lemma Imm8Word(w: bv32, a: bv32, s: bv32, w': bv32)
    requires w' == (w & 0xFF7F_F0F0) | (((a >> 4) & 0xF) << 8) | (a & 0xF) | s && (s == 0 || s == 0x80_0000)
    ensures (((w' >> 8) & 0xF) << 4) | (w' & 0xF) == (((a >> 4) & 0xF) << 4) | (a & 0xF)
    ensures (w' >> 23) & 1 == 1 <==> s != 0
  {
  }

  lemma Pc12Word(w: bv32, a: bv32, s: bv32, w': bv32)
    requires w' == (w & 0xF000_FF7F) | s | ((a & 0xFFF) << 16) && (s == 0 || s == 0x80)
    ensures (w' >> 16) & 0xFFF == a & 0xFFF && ((w' >> 7) & 1 == 1 <==> s != 0)
  {
  }

  lemma MagnitudeRange12(v: bv32, a: bv32)
    requires a == if v >= 0x8000_0000 then 0 - v else v
    ensures a < 0x1000 <==> v < 0x1000 || v > 0xFFFF_F000
  {
  }

  lemma MagnitudeOver12(v: bv32, a: bv32)
    requires a == if v >= 0x8000_0000 then 0 - v else v
    ensures 0x1000 <= a < 0x8000_0000 <==> 0x1000 <= v <= 0xFFFF_F000 && v != 0x8000_0000
  {
  }

  lemma Over16(v: bv32, x: bv32)
    requires x == v + 32768
    ensures x > 98303 <==> 0xFFFF < v < 0xFFFF_8000
  {
  }

  lemma Over8(v: bv32, x: bv32)
    requires x == v + 128
    ensures x > 383 <==> 0xFF < v < 0xFFFF_FF80
  {
  }

  lemma MagnitudeRange8(v: bv32, a: bv32)
    requires a == if v >= 0x8000_0000 then 0 - v else v
    ensures a < 0x100 <==> v < 0x100 || v > 0xFFFF_FF00
  {
  }

  /** The base of a call is a BLX: b is the top byte with the condition of a BLX for a Thumb target. */
  lemma BlxBase(w: bv32, thumb: bool, b: bv32)
    requires b == (if thumb then w | 0xF000_0000 else w) & 0xFF00_0000
    ensures (b >> 24) & 0xFE == 0xFA <==> (if thumb then (w >> 24) & 0x0E == 0x0A else (w >> 24) & 0xFE == 0xFA)
  {
  }

  lemma Low25(v: bv32, a: bv32)
    requires a == (v >> 1) | (if v >= 0x8000_0000 then 0x8000_0000 else 0)
    ensures a & 0x01FF_FFFF == (v >> 1) & 0x01FF_FFFF
  {
  }

  lemma BlxWord(b: bv32, p: bv32, h: bv32, w': bv32)
    requires b & 0xFF_FFFF == 0 && (b >> 24) & 0xFE == 0xFA && p & 0xFF00_0000 == 0 && h <= 1
    requires w' == ((b & 0xFEFF_FFFF) | (h << 24)) | p
    ensures w' & 0xFF_FFFF == p && (w' >> 24) & 0xFE == 0xFA && (w' >> 24) & 1 == h
  {
  }

  lemma BlWord(b: bv32, p: bv32, w': bv32)
    requires b & 0xFF_FFFF == 0 && p & 0xFF00_0000 == 0 && w' == b | p
    ensures w' & 0xFF_FFFF == p && w' >> 24 == b >> 24
  {
  }

  lemma PackedCall(v: bv32, p: bv32, q: bv32, h: bv32)
    requires p == (v >> 1) & 0x01FF_FFFF && q == p >> 1 && h == p & 1
    ensures q == (v >> 2) & 0xFF_FFFF && h == (v >> 1) & 1 && q & 0xFF00_0000 == 0
  {
  }

  lemma BlxValue(v: bv32, h: bv32)
    requires h == (v >> 1) & 1
    ensures h <= 1 && (v & 3 == h << 1 <==> v & 1 == 0)
  {
  }

  /** The fields of a Thumb branch give back what was put there. */
  lemma ThumbBranchWord(b: bv32, s: bv32, j1: bv32, j2: bv32, x: bv32, y: bv32, k: bv32, w': bv32)
    requires b & 0x2FFF_07FF == 0 && s <= 1 && j1 <= 1 && j2 <= 1 && x <= 0x3FF && y <= 0x7FF
    requires k == (s << 10) | x | (j1 << 29) | (j2 << 27) | (y << 16) && w' == b | k
    ensures (w' >> 10) & 1 == s && (w' >> 29) & 1 == j1 && (w' >> 27) & 1 == j2
    ensures w' & 0x3FF == x && (w' >> 16) & 0x7FF == y
  {
  }

  lemma ThumbBranchJoined(v: bv32, s: bv32, j1: bv32, j2: bv32, x: bv32, y: bv32, f: bv32)
    requires s == (v >> 23) & 1 && j1 == ((v >> 22) ^ (s ^ 1)) & 1 && j2 == ((v >> 21) ^ (s ^ 1)) & 1
    requires x == (v >> 11) & 0x3FF && y == v & 0x7FF
    requires f == (s << 23) | (((j1 ^ s) ^ 1) << 22) | (((j2 ^ s) ^ 1) << 21) | (x << 11) | y
    ensures f == v & 0xFF_FFFF
  {
  }

  lemma ThumbBranchSizes(v: bv32, s: bv32, j1: bv32, j2: bv32, x: bv32, y: bv32)
    requires s == (v >> 23) & 1 && j1 == ((v >> 22) ^ (s ^ 1)) & 1 && j2 == ((v >> 21) ^ (s ^ 1)) & 1
    requires x == (v >> 11) & 0x3FF && y == v & 0x7FF
    ensures s <= 1 && j1 <= 1 && j2 <= 1 && x <= 0x3FF && y <= 0x7FF
  {
  }

  lemma EvenBranch(v: bv32, p: bv32, f: bv32)
    requires p == (v >> 1) & 0x01FF_FFFF && f == (p & 0xFF_FFFF) << 1
    ensures f == v & 0x01FF_FFFE && (p & 1 == 0 <==> v & 2 == 0)
  {
  }

  /** A value made even reads back as a multiple of 4. */
  lemma OddBranch(p: bv32, q: bv32, f: bv32, u: bv32)
    requires p & 1 == 1 && q == p + 1 && f == (q & 0xFF_FFFF) << 1 && u == f | (0 - (f & 0x100_0000))
    ensures u & 3 == 0
  {
  }

  lemma LowBits(v: bv32)
    ensures v & 3 == 0 <==> v & 2 == 0 && v & 1 == 0
  {
  }
}
