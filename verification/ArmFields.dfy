/** write_reloc_r and rel_unpack_addend on the word in the segment's buffer. */
module ArmFields {
  import opened ArmCodec
  import ArmRoundTrip
  import ArmKeeps
  import ArmEncodings

  class RelField {
    var word: bv32

    constructor (w: bv32)
      ensures word == w
    {
      word := w;
    }

    /** Data words. */
    method WriteData(r: RelocType, relocVal: bv32)
      requires r in {Abs32, Rel32, Abs16, Abs8}
      modifies this
      ensures word == Written(old(word), r, relocVal, 0)
    {
      match r
      case Abs32 | Rel32 => word := relocVal;
      case Abs16 => word := (word & 0xFFFF_0000) | (relocVal & 0xFFFF);
      case Abs8 => word := (word & 0xFFFF_FF00) | (relocVal & 0xFF);
    }

    /** ARM B. */
    method WriteJump(relocVal: bv32)
      modifies this
      ensures word == Written(old(word), Jump24, relocVal, 0)
    {
      word := word & 0xFF00_0000;
      word := word | relocVal;
    }

    /** The unconditional branch of one Thumb halfword. */
    method WriteJump11(relocVal: bv32)
      modifies this
      ensures word == Written(old(word), ThmJump11, relocVal, 0)
    {
      word := word & 0xFFFF_F800;
      word := word | (relocVal & 0xFFFF);
    }

    /** Thumb halfwords whose low byte is the value. */
    method WriteByte(relocVal: bv32)
      modifies this
      ensures word == Written(old(word), ThmJump8, relocVal, 0)
    {
      word := word & 0xFFFF_FF00;
      word := word | (relocVal & 0xFFFF);
    }

    /** BL and BLX: the condition of a BLX for a Thumb target, and an empty immediate. */
    method PrepareCall(symval: bv32)
      modifies this
      ensures word == CallBase(old(word), symval)
    {
      if Thumb(symval) { word := word | 0xF000_0000; }
      word := word & 0xFF00_0000;
    }

    method FillCall(relocVal: bv32)
      modifies this
      ensures word == InsertCall(old(word), relocVal & 1, relocVal >> 1)
    {
      hide IsBlx, InsertCall;
      if IsBlx(word) {
        ArmRoundTrip.BlxInserted(word, relocVal & 1, relocVal >> 1);
        var hval := relocVal & 1;
        word := word & 0xFEFF_FFFF;
        word := word | (hval << 24);
      } else {
        ArmRoundTrip.BlInserted(word, relocVal & 1, relocVal >> 1);
      }
      word := word | (relocVal >> 1);
    }

    method WriteCallField(relocVal: bv32, symval: bv32)
      modifies this
      ensures word == WriteCall(old(word), relocVal, symval)
    {
      hide CallBase, InsertCall;
      PrepareCall(symval);
      FillCall(relocVal);
    }

    /** B.W, BL and BLX in Thumb code. */
    method WriteThumbBranchField(relocVal: bv32, toArm: bool)
      modifies this
      ensures word == WriteThumbBranch(old(word), relocVal, toArm)
    {
      var val := relocVal;
      if toArm {
        if val & 1 == 1 { val := val + 1; }
        word := word & 0xEFFF_FFFF;
      }
      var s := (val >> 23) & 1;
      var j1 := ((val >> 22) ^ (s ^ 1)) & 1;
      var j2 := ((val >> 21) ^ (s ^ 1)) & 1;
      word := word & 0xD000_F800;
      word := word | ((s << 10) | ((val >> 11) & 0x3FF) | (j1 << 29) | (j2 << 27) | ((val & 0x7FF) << 16));
    }

    /** Split immediates of one Thumb halfword. */
    method WriteSplitHalfword(r: RelocType, relocVal: bv32)
      requires r in {ThmJump6, ThmAbs5}
      modifies this
      ensures word == Written(old(word), r, relocVal, 0)
    {
      match r
      case ThmJump6 =>
        word := word & 0xFFFF_FD07;
        word := word | (((relocVal >> 5) & 1) << 9);
        word := word | ((relocVal & 0x1F) << 3);
      case ThmAbs5 =>
        word := word & 0xFFFF_F83F;
        word := word | ((relocVal << 6) & 0xFFFF);
    }

    /** MOVW and MOVT. */
    method WriteArmMov(r: RelocType, relocVal: bv32)
      requires r in {Movw, Movt}
      modifies this
      ensures word == Written(old(word), r, relocVal, 0)
    {
      var imm4, imm12 := (relocVal >> 12) & 0xFF, relocVal & 0xFFF;
      word := word & 0xFFF0_F000;
      word := word | imm12;
      word := word | (imm4 << 16);
    }

    method WriteThumbMov(r: RelocType, relocVal: bv32)
      requires r in {ThmMovw, ThmMovt}
      modifies this
      ensures word == Written(old(word), r, relocVal, 0)
    {
      word := word & 0x8F00_FBF0;
      word := word | (((relocVal >> 11) & 1) << 10);
      word := word | ((relocVal >> 12) & 0xFF);
      word := word | (((relocVal >> 8) & 7) << 28);
      word := word | ((relocVal & 0xFF) << 16);
    }

    /** Loads whose 12-bit offset is a magnitude and an up bit. */
    method WriteOffset12(r: RelocType, relocVal: bv32)
      requires r in {ThmPc12, Abs12, LdrPcG0}
      modifies this
      ensures word == Written(old(word), r, relocVal, 0)
    {
      hide Abs, UpBit;
      if r == ThmPc12 {
        word := word & 0xF000_FF7F;
        word := word | UpBit(relocVal, 0x80);
        word := word | ((Abs(relocVal) & 0xFFF) << 16);
      } else {
        word := word & 0xFF7F_F000;
        word := word | (Abs(relocVal) & 0xFFF);
        word := word | UpBit(relocVal, 0x80_0000);
      }
    }

    /** Loads whose 8-bit offset is split in two. */
    method WriteOffset8(relocVal: bv32)
      modifies this
      ensures word == Written(old(word), LdrsPcG0, relocVal, 0)
    {
      hide Abs, UpBit;
      word := word & 0xFF7F_F0F0;
      word := word | (((Abs(relocVal) >> 4) & 0xF) << 8);
      word := word | (Abs(relocVal) & 0xF);
      word := word | UpBit(relocVal, 0x80_0000);
    }

    method WriteThumb(r: RelocType, relocVal: bv32, symval: bv32)
      requires r in {ThmCall, ThmJump24, ThmJump11, ThmJump8, ThmPc8, ThmJump6, ThmAbs5, ThmMovw, ThmMovt, ThmPc12}
      modifies this
      ensures word == Written(old(word), r, relocVal, symval)
    {
      hide Written, WriteThumbBranch, Thumb, Abs, UpBit;
      SymbolUnused(word, r, relocVal, symval);
      ThumbWritten(word, relocVal, symval);
      BytesWritten(word, relocVal);
      match r
      case ThmCall => WriteThumbBranchField(relocVal, !Thumb(symval));
      case ThmJump24 => WriteThumbBranchField(relocVal, false);
      case ThmJump11 => WriteJump11(relocVal);
      case ThmJump8 | ThmPc8 => WriteByte(relocVal);
      case ThmJump6 | ThmAbs5 => WriteSplitHalfword(r, relocVal);
      case ThmMovw | ThmMovt => WriteThumbMov(r, relocVal);
      case ThmPc12 => WriteOffset12(r, relocVal);
    }

    /** write_reloc_r. */
    method WriteRelocR(r: RelocType, relocVal: bv32, symval: bv32)
      modifies this
      ensures word == Written(old(word), r, relocVal, symval)
    {
      hide Written, WriteCall, WriteThumbBranch, Abs, UpBit;
      SymbolUnused(word, r, relocVal, symval);
      CallWritten(word, relocVal, symval);
      match r
      case Abs32 | Rel32 | Abs16 | Abs8 => WriteData(r, relocVal);
      case Pc24 | Call => WriteCallField(relocVal, symval);
      case Jump24 => WriteJump(relocVal);
      case Movw | Movt => WriteArmMov(r, relocVal);
      case Abs12 | LdrPcG0 => WriteOffset12(r, relocVal);
      case LdrsPcG0 => WriteOffset8(relocVal);
      case _ => WriteThumb(r, relocVal, symval);
    }

    /** The end of reloc_do. The field holds v as it is encoded, all bits outside the field stay as they were,
        and reading the field gives v back exactly if it can hold v. */
    method Relocate(r: RelocType, v: bv32, symval: bv32)
      modifies this
      ensures ArmEncodings.Encodes(old(word), r, v, symval, word)
      ensures ArmKeeps.Agrees(old(word), word, Kept(old(word), r, symval))
      ensures Unpacked(word, r) == v <==> Fits(old(word), r, v, symval)
    {
      hide *;
      ghost var w := word;
      var packed := PackResult(v, r);
      WriteRelocR(r, MaskResult(packed, r), symval);
      RelocatedIs(w, r, v, symval);
      ArmEncodings.Encoded(w, r, v, symval);
      ArmRoundTrip.RoundTrip(w, r, v, symval);
      ArmKeeps.KeepsOtherBits(w, r, v, symval);
    }
  }

  /** Only calls look at the symbol. */
  lemma SymbolUnused(w: bv32, r: RelocType, val: bv32, symval: bv32)
    ensures !r.Call? && !r.Pc24? && !r.ThmCall? ==> Written(w, r, val, symval) == Written(w, r, val, 0)
  {
    hide WriteCall, WriteThumbBranch, Abs, UpBit;
  }

  lemma CallWritten(w: bv32, val: bv32, symval: bv32)
    ensures Written(w, Call, val, symval) == Written(w, Pc24, val, symval) == WriteCall(w, val, symval)
  {
    hide WriteCall;
  }

  lemma ThumbWritten(w: bv32, val: bv32, symval: bv32)
    ensures Written(w, ThmCall, val, symval) == WriteThumbBranch(w, val, !Thumb(symval))
    ensures Written(w, ThmJump24, val, 0) == WriteThumbBranch(w, val, false)
  {
    hide WriteThumbBranch, Thumb;
  }

  lemma BytesWritten(w: bv32, val: bv32)
    ensures Written(w, ThmPc8, val, 0) == Written(w, ThmJump8, val, 0)
  {
  }

  lemma RelocatedIs(w: bv32, r: RelocType, v: bv32, symval: bv32)
    ensures Relocated(w, r, v, symval) == Written(w, r, MaskResult(PackResult(v, r), r), symval)
  {
    hide PackResult, MaskResult, Written;
  }
}
