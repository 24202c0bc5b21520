/** Group relocations: an offset is split into 8-bit chunks, each loaded by its own instruction (section
    4.6.1.4 of ELF for the ARM Architecture). */
module ArmGroups {
  predicate BitSet(x: bv32, k: bv32)
    requires k <= 31
  {
    x & (1 << k) != 0
  }

  /** The highest of bits 31..8 of x at or below k, else 7. */
  function TopFrom(x: bv32, k: bv32): bv32
    requires 7 <= k <= 31
    decreases k
  {
    if k == 7 || BitSet(x, k) then k else TopFrom(x, k - 1)
  }

  /** An offset with bit 1 set moves up to the next even one; others stay, odd ones included. */
  function Aligned(o: bv32): bv32 { if o & 2 != 0 then o + (2 - (o & 1)) else o }

  /** rel_alu_mask_offset for alignment 2. */
  function MaskOffset(x: bv32): bv32 { Aligned(TopFrom(x, 31) - 7) }

  /** No bit of x above k is set. */
  predicate Below(x: bv32, k: bv32)
    requires k <= 31
  {
    (x >> k) >> 1 == 0
  }

  lemma BelowStep(x: bv32, k: bv32)
    requires 7 < k <= 31 && (x >> k) >> 1 == 0 && x & (1 << k) == 0
    ensures (x >> (k - 1)) >> 1 == 0
  {
  }

  lemma {:induction false} TopIsTop(x: bv32, k: bv32)
    requires 7 <= k <= 31 && Below(x, k)
    ensures 7 <= TopFrom(x, k) <= k && Below(x, TopFrom(x, k))
    decreases k
  {
    if !(k == 7 || BitSet(x, k)) {
      BelowStep(x, k);
      TopIsTop(x, k - 1);
    }
  }

  lemma {:induction false} TopIsSet(x: bv32, k: bv32)
    requires 7 <= k <= 31
    ensures 7 <= TopFrom(x, k) <= k && (TopFrom(x, k) > 7 ==> BitSet(x, TopFrom(x, k)))
    decreases k
  {
    hide BitSet;
    if !(k == 7 || BitSet(x, k)) { TopIsSet(x, k - 1); }
  }

  /** t is the highest bit of x from 8 up, or 7 if none of them is set. */
  predicate IsTop(x: bv32, t: bv32) {
    7 <= t <= 31 && (x >> t) >> 1 == 0 && (t > 7 ==> x & (1 << t) != 0)
  }

  /** The offset o is t - 7, moved up to clear its bit 1: by 2 from an even number and by 1 from an odd one. */
  predicate OffsetFor(t: bv32, o: bv32) {
    && o & 2 == 0 && t - 7 <= o <= t - 5 && o <= 24
    && o == if (t - 7) & 3 == 2 then t - 5 else if (t - 7) & 3 == 3 then t - 6 else t - 7
  }

  lemma AlignedCases(t: bv32, d: bv32, o: bv32)
    requires 7 <= t <= 31 && d == t - 7 && o == if d & 2 != 0 then d + (2 - (d & 1)) else d
    ensures OffsetFor(t, o)
  {
  }

  lemma AlignedIs(t: bv32)
    requires 7 <= t <= 31
    ensures OffsetFor(t, Aligned(t - 7))
  {
    hide OffsetFor;
    AlignedCases(t, t - 7, Aligned(t - 7));
  }

  lemma TopMeets(x: bv32, t: bv32)
    requires 7 <= t <= 31 && Below(x, t) && (t > 7 ==> BitSet(x, t))
    ensures IsTop(x, t)
  {
  }

  /** The offset follows from the highest bit, of which there is one for every x. */
  lemma MaskOffsetLaw(x: bv32) returns (t: bv32)
    ensures IsTop(x, t) && OffsetFor(t, MaskOffset(x))
  {
    hide TopFrom, Aligned, Below, BitSet, IsTop, OffsetFor;
    t := TopFrom(x, 31);
    StartBelow(x);
    TopIsTop(x, 31);
    TopIsSet(x, 31);
    TopMeets(x, t);
    AlignedIs(t);
  }

  /** rel_alu_mask_offset. */
  method RelAluMaskOffset(residual: bv32) returns (maskOffset: bv32)
    ensures maskOffset == MaskOffset(residual)
  {
    hide BitSet;
    maskOffset := 31;
    while maskOffset > 7 && !BitSet(residual, maskOffset)
      invariant 7 <= maskOffset <= 31 && TopFrom(residual, maskOffset) == TopFrom(residual, 31)
      decreases maskOffset
    {
      maskOffset := maskOffset - 1;
    }
    maskOffset := maskOffset - 7;
    if maskOffset & 2 != 0 { maskOffset := maskOffset + (2 - (maskOffset & 1)); }
  }

  /** x has no bit above the eight from o on. */
  predicate Covers(x: bv32, o: bv32) { o <= 24 && (x >> o) >> 8 == 0 }

  predicate Small24(x: bv32) { x >> 24 == 0 }

  predicate Small16(x: bv32) { x >> 16 == 0 }

  lemma AlignedCovers(x: bv32, t: bv32, d: bv32, o: bv32)
    requires 7 <= t <= 31 && Below(x, t) && d == t - 7 && o == if d & 2 != 0 then d + (2 - (d & 1)) else d
    ensures Covers(x, o) && (t <= 23 ==> o <= 16)
  {
  }

  lemma AlignedTop(x: bv32, t: bv32)
    requires 7 <= t <= 31 && Below(x, t)
    ensures Covers(x, Aligned(t - 7)) && (t <= 23 ==> Aligned(t - 7) <= 16)
  {
    hide Below, Covers;
    AlignedCovers(x, t, t - 7, Aligned(t - 7));
  }

  lemma StartBelow(x: bv32)
    ensures Below(x, 31)
  {
  }

  /** The eight bits from the offset on include x's highest one. */
  lemma MaskCovers(x: bv32)
    ensures Covers(x, MaskOffset(x))
  {
    hide Below, Covers, Aligned, TopFrom;
    StartBelow(x);
    TopIsTop(x, 31);
    AlignedTop(x, TopFrom(x, 31));
  }

  lemma HighClear(x: bv32, k: bv32)
    requires Small24(x) && 24 <= k <= 31
    ensures !BitSet(x, k)
  {
  }

  lemma SmallBelow(x: bv32)
    requires Small24(x)
    ensures Below(x, 23)
  {
  }

  lemma {:induction false} TopOfSmall(x: bv32, k: bv32)
    requires Small24(x) && 23 <= k <= 31
    ensures TopFrom(x, k) == TopFrom(x, 23)
    decreases k
  {
    hide Small24, BitSet;
    if k > 23 {
      HighClear(x, k);
      TopOfSmall(x, k - 1);
    }
  }

  lemma MaskOfSmall(x: bv32)
    requires Small24(x)
    ensures MaskOffset(x) <= 16
  {
    hide Small24, Below, Aligned, TopFrom;
    TopOfSmall(x, 31);
    SmallBelow(x);
    TopIsTop(x, 23);
    AlignedTop(x, TopFrom(x, 31));
  }

  function Keep(x: bv32, o: bv32): bv32
    requires o <= 24
  {
    x & (0xFF << o)
  }

  function Drop(x: bv32, o: bv32): bv32
    requires o <= 24
  {
    x & !(0xFF << o)
  }

  function Chunk(x: bv32): bv32 {
    MaskCovers(x);
    Keep(x, MaskOffset(x))
  }

  function Rest(x: bv32): bv32 {
    MaskCovers(x);
    Drop(x, MaskOffset(x))
  }

  /** What is left of x after its first n groups. */
  function Residual(x: bv32, n: nat): bv32 { if n == 0 then x else Rest(Residual(x, n - 1)) }

  /** The body of rel_mask_for_group's loop. */
  method TakeGroup(currResidual: bv32) returns (chunk: bv32, rest: bv32)
    ensures chunk == Chunk(currResidual) && rest == Rest(currResidual)
  {
    hide MaskOffset, Keep, Drop;
    MaskCovers(currResidual);
    var maskOffset := RelAluMaskOffset(currResidual);
    chunk := MaskedBy(currResidual, maskOffset);
    rest := ClearedBy(currResidual, maskOffset);
  }

  method MaskedBy(residual: bv32, maskOffset: bv32) returns (r: bv32)
    requires maskOffset <= 24
    ensures r == Keep(residual, maskOffset)
  {
    hide Drop, Keep;
    var cresMask := 0xFF << maskOffset;
    r := residual & cresMask;
    KeepDropForm(residual, maskOffset, cresMask);
  }

  method ClearedBy(residual: bv32, maskOffset: bv32) returns (r: bv32)
    requires maskOffset <= 24
    ensures r == Drop(residual, maskOffset)
  {
    hide Drop, Keep;
    var cresMask := 0xFF << maskOffset;
    r := residual & !cresMask;
    KeepDropForm(residual, maskOffset, cresMask);
  }

  /** rel_mask_for_group: for group number `group`, the chunk, or if the instruction concludes the sequence,
      all that the groups before left. */
  method RelMaskForGroup(relocVal: bv32, group: nat, concludes: bool) returns (val: bv32)
    ensures val == if concludes then Residual(relocVal, group) else Chunk(Residual(relocVal, group))
  {
    hide Chunk, Rest;
    val := relocVal;
    var currResidual := relocVal;
    var numAluGroups := if concludes then group else group + 1;
    for n := 0 to numAluGroups
      invariant currResidual == Residual(relocVal, n)
      invariant val == if n == 0 then relocVal else Chunk(Residual(relocVal, n - 1))
    {
      val, currResidual := TakeGroup(currResidual);
    }
    if concludes { val := currResidual; }
  }

  /** a and b have no bit in common and make x together. */
  predicate Splits(a: bv32, b: bv32, x: bv32) { a & b == 0 && a | b == x }

  lemma KeepDropForm(x: bv32, o: bv32, m: bv32)
    requires o <= 24 && m == 0xFF << o
    ensures Keep(x, o) == x & m && Drop(x, o) == x & !m
  {
  }

  lemma KeepDrop(x: bv32, o: bv32, m: bv32)
    requires o <= 24 && m == 0xFF << o
    ensures Splits(Keep(x, o), Drop(x, o), x)
  {
    hide *;
    KeepDropForm(x, o, m);
    SplitBits(x, m, Keep(x, o), Drop(x, o));
  }

  lemma SplitBits(x: bv32, m: bv32, c: bv32, r: bv32)
    requires c == x & m && r == x & !m
    ensures Splits(c, r, x)
  {
  }

  lemma DroppedBits(x: bv32, o: bv32, r: bv32)
    requires Covers(x, o) && r == x & !(0xFF << o)
    ensures Small24(r) && (o <= 16 ==> Small16(r))
  {
  }

  lemma DropIsSmall(x: bv32, o: bv32)
    requires Covers(x, o)
    ensures Small24(Drop(x, o)) && (o <= 16 ==> Small16(Drop(x, o)))
  {
    hide Small24, Small16;
    DroppedBits(x, o, Drop(x, o));
  }

  lemma RestIsSmall(x: bv32)
    ensures Small24(Rest(x))
    ensures MaskOffset(x) <= 16 ==> Small16(Rest(x))
  {
    hide Covers, Small24, Small16, MaskOffset, Drop;
    MaskCovers(x);
    DropIsSmall(x, MaskOffset(x));
  }

  lemma ChunkAndRest(x: bv32)
    ensures Splits(Chunk(x), Rest(x), x)
  {
    hide Covers, MaskOffset, Keep, Drop, Splits;
    MaskIsLow(x);
    KeepDrop(x, MaskOffset(x), 0xFF << MaskOffset(x));
  }

  lemma MaskIsLow(x: bv32)
    ensures MaskOffset(x) <= 24
  {
    hide MaskOffset;
    MaskCovers(x);
  }

  /** c lies in the eight bits from o on and r below them. */
  predicate Placed(c: bv32, r: bv32, o: bv32) {
    o <= 24 && c & ((1 << o) - 1) == 0 && (c >> o) >> 8 == 0 && r >> o == 0
  }

  lemma RestLow(x: bv32, o: bv32, m: bv32, r: bv32)
    requires o <= 24 && (x >> o) >> 8 == 0 && m == 0xFF << o && r == x & !m
    ensures r >> o == 0
  {
  }

  lemma ChunkHigh(x: bv32, o: bv32, m: bv32, c: bv32)
    requires o <= 24 && m == 0xFF << o && c == x & m
    ensures c & ((1 << o) - 1) == 0
  {
  }

  lemma ChunkNarrow(x: bv32, o: bv32, m: bv32, c: bv32)
    requires o <= 24 && m == 0xFF << o && c == x & m
    ensures (c >> o) >> 8 == 0
  {
  }

  lemma KeepDropPlaced(x: bv32, o: bv32, m: bv32, c: bv32, r: bv32)
    requires Covers(x, o) && m == 0xFF << o && c == x & m && r == x & !m
    ensures Placed(c, r, o)
  {
    RestLow(x, o, m, r);
    ChunkHigh(x, o, m, c);
    ChunkNarrow(x, o, m, c);
  }

  lemma KeepDropAt(x: bv32, o: bv32, m: bv32)
    requires o <= 24 && Covers(x, o) && m == 0xFF << o
    ensures Placed(Keep(x, o), Drop(x, o), o)
  {
    hide *;
    KeepDropForm(x, o, m);
    KeepDropPlaced(x, o, m, Keep(x, o), Drop(x, o));
  }

  /** A chunk is a byte at the mask offset, and what it leaves lies below. */
  lemma ChunkPlaced(x: bv32)
    ensures Placed(Chunk(x), Rest(x), MaskOffset(x))
  {
    hide MaskOffset, Keep, Drop, Covers, Placed;
    MaskCovers(x);
    MaskIsLow(x);
    KeepDropAt(x, MaskOffset(x), 0xFF << MaskOffset(x));
  }

  function Plus(a: bv32, b: bv32): bv32 { a + b }

  lemma SplitAdds(a: bv32, b: bv32, x: bv32)
    requires Splits(a, b, x)
    ensures Plus(a, b) == x
  {
    hide Splits;
    DisjointAdds(a, b, x);
  }

  lemma DisjointAdds(a: bv32, b: bv32, x: bv32)
    requires Splits(a, b, x)
    ensures a + b == x
  {
  }

  lemma PartOf(a: bv32, x: bv32, b: bv32, c: bv32, whole: bv32)
    requires Splits(a, x, whole) && Splits(b, c, x)
    ensures a & b == 0 && a & c == 0 && b & c == 0
  {
  }

  /** a, b and c have no bit in common and add up to x. */
  predicate ThreeParts(a: bv32, b: bv32, c: bv32, x: bv32) {
    Plus(a, Plus(b, c)) == x && a & b == 0 && a & c == 0 && b & c == 0
  }

  lemma SplitTwice(a: bv32, rest: bv32, b: bv32, c: bv32, x: bv32)
    requires Splits(a, rest, x) && Splits(b, c, rest)
    ensures ThreeParts(a, b, c, x)
  {
    hide Splits, Plus;
    SplitAdds(a, rest, x);
    SplitAdds(b, c, rest);
    PartOf(a, rest, b, c, x);
  }

  lemma Residuals(x: bv32)
    ensures Residual(x, 0) == x && Residual(x, 1) == Rest(x) && Residual(x, 2) == Rest(Residual(x, 1))
  {
    hide Rest;
    assert Residual(x, 1) == Rest(Residual(x, 0));
  }

  /** For every offset: the group 0 chunk, the group 1 chunk and what concludes at group 2 have no bit in
      common and add up to the offset. */
  lemma GroupsAddUp(x: bv32)
    ensures ThreeParts(Chunk(Residual(x, 0)), Chunk(Residual(x, 1)), Residual(x, 2), x)
  {
    hide *;
    Residuals(x);
    ChunkAndRest(x);
    ChunkAndRest(Residual(x, 1));
    SplitTwice(Chunk(x), Residual(x, 1), Chunk(Residual(x, 1)), Residual(x, 2), x);
  }

  /** Group n leaves less than 2^(32-8n): 24 bits after one group, 16 after two. */
  lemma ResidualsShrink(x: bv32)
    ensures Residual(x, 1) >> 24 == 0 && Residual(x, 2) >> 16 == 0
  {
    hide Residual, MaskOffset, Rest;
    Residuals(x);
    RestIsSmall(x);
    MaskOfSmall(Residual(x, 1));
    RestIsSmall(Residual(x, 1));
  }
}
