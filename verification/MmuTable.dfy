/** The first-level MMU table genextbin writes for the loaded image, and the lookup it must agree with. */
module MmuTable {
  import opened Wrappers

  const SZ_16M: nat := 0x100_0000
  const SZ_1M: nat := 0x10_0000
  const SZ_64K: nat := 0x1_0000
  const SZ_4K: nat := 0x1000
  const SECTION_FLAGS: nat := 0x2
  const SSECTION_FLAGS: nat := 0x4_0002

  datatype Entry = Entry(va: nat, pa: nat, len: nat)

  const FREE := Entry(0, 0, 0)

  predicate In(e: Entry, va: nat) { e.va <= va < e.va + e.len }

  /** The first entry that holds va decides. */
  function Lookup(es: seq<Entry>, va: nat): Option<nat> {
    if es == [] then None
    else if In(es[0], va) then Some(es[0].pa + (va - es[0].va))
    else Lookup(es[1..], va)
  }

  /** The entries of a table, up to the first of length 0. */
  function Used(table: seq<Entry>): seq<Entry> {
    if table == [] || table[0].len == 0 then [] else [table[0]] + Used(table[1..])
  }

  /** The lookup takes the first of the regions [va, va + len) that holds the address. */
  lemma {:induction false} LookupLaw(es: seq<Entry>, va: nat) returns (i: nat)
    ensures i <= |es| && forall j | 0 <= j < i :: !(es[j].va <= va < es[j].va + es[j].len)
    ensures i < |es| ==> es[i].va <= va < es[i].va + es[i].len && Lookup(es, va) == Some(va - es[i].va + es[i].pa)
    ensures i == |es| ==> Lookup(es, va) == None
  {
    i := 0;
    if es != [] && !In(es[0], va) {
      i := LookupLaw(es[1..], va);
      assert forall j | 0 < j <= i && j < |es| :: es[j] == es[1..][j - 1];
      i := i + 1;
    }
  }

  lemma {:induction false} UsedLaw(table: seq<Entry>) returns (n: nat)
    ensures n <= |table| && Used(table) == table[..n]
    ensures forall j | 0 <= j < n :: table[j].len != 0
    ensures n < |table| ==> table[n].len == 0
  {
    n := 0;
    if table != [] && table[0].len != 0 {
      n := UsedLaw(table[1..]);
      assert forall j | 0 < j <= n && j < |table| :: table[j] == table[1..][j - 1];
      n := n + 1;
    }
  }

  method AddMemEntry(table: array<Entry>, e: Entry) returns (ret: int)
    requires table.Length == 20
    modifies table
    ensures ret == 0 || ret == -1
    ensures ret == -1 <==> forall i | 0 <= i < table.Length :: old(table[i]) != FREE
    ensures ret == -1 ==> table[..] == old(table[..])
    ensures ret == 0 ==> exists i | 0 <= i < table.Length ::
              && old(table[i]) == FREE && (forall j | 0 <= j < i :: old(table[j]) != FREE)
              && table[..] == old(table[..])[i := e]
  {
    var i := 0;
    ret := 0;
    while ret == 0 && table[i] != FREE
      invariant 0 <= i <= table.Length && (ret == 0 ==> i < table.Length) && (ret == -1 ==> i == table.Length)
      invariant ret == 0 || ret == -1
      invariant forall j | 0 <= j < i :: table[j] != FREE
      decreases table.Length - i
    {
      i := i + 1;
      if i == table.Length { ret := -1; }
    }
    if ret == 0 { table[i] := e; }
  }

  /** va_to_pa; without an entry of length 0 it would run off the table. */
  method VaToPa(table: array<Entry>, va: nat) returns (pa: Option<nat>)
    requires exists i | 0 <= i < table.Length :: table[i].len == 0
    ensures pa == Lookup(Used(table[..]), va)
  {
    var i := 0;
    ghost var end :| 0 <= end < table.Length && table[end].len == 0;
    assert table[0..] == table[..];
    while table[i].len != 0
      invariant 0 <= i <= end
      invariant Lookup(Used(table[i..]), va) == Lookup(Used(table[..]), va)
      decreases table.Length - i
    {
      assert table[i..][1..] == table[i + 1..];
      if table[i].va <= va < table[i].va + table[i].len {
        return Some(table[i].pa + (va - table[i].va));
      }
      i := i + 1;
    }
    pa := None;
  }

  /** The address a first-level table word gives va: a word that ends in binary 10 is a section, or a supersection
      of 16M if bit 18 is set; any other word here is a fault. */
  function Translate(word: nat, va: nat): Option<nat> {
    if word % 4 != 2 then None
    else if word / 0x4_0000 % 2 == 1 then Some(word / 0x100_0000 * 0x100_0000 + va % 0x100_0000)
    else Some(word / 0x10_0000 * 0x10_0000 + va % 0x10_0000)
  }

  /** Block k, the 1M from k * 1M on, lies inside e. */
  predicate Whole(e: Entry, k: nat) { e.va <= k * 0x10_0000 && (k + 1) * 0x10_0000 <= e.va + e.len }

  /** Both addresses are at the same place within 1M. */
  predicate Congruent(e: Entry) { e.va % 0x10_0000 == e.pa % 0x10_0000 }

  /** The n-th 16M lies inside e, whose addresses are at the same place within 16M. */
  predicate Wide(e: Entry, n: nat) {
    e.va <= n * 0x100_0000 && (n + 1) * 0x100_0000 <= e.va + e.len && e.va % 0x100_0000 == e.pa % 0x100_0000
  }

  /** The physical address of block k. */
  function BlockPa(e: Entry, k: nat): nat
    requires Whole(e, k)
  {
    e.pa + (k * 0x10_0000 - e.va)
  }

  /** The word for block k of e: a supersection if all of its 16M is e's, else a section. */
  function Descriptor(e: Entry, k: nat): nat
    requires Whole(e, k)
  {
    if Wide(e, k / 16) then BlockPa(e, k) - BlockPa(e, k) % 0x100_0000 + 0x4_0002 else BlockPa(e, k) + 2
  }

  /** The slot of block k: the last entry that can map it decides. */
  function Slot(es: seq<Entry>, k: nat): nat {
    if es == [] then 0
    else
      var e := es[|es| - 1];
      if Whole(e, k) && Congruent(e) then Descriptor(e, k) else Slot(es[..|es| - 1], k)
  }

  ghost predicate TableOk(words: seq<nat>, es: seq<Entry>) {
    |words| == 4096 && forall k: nat | k < 4096 :: words[k] == Slot(es, k)
  }

  /** What create_ttb is written for: page-aligned regions inside the 32-bit spaces. */
  predicate Valid(e: Entry) {
    && e.va % 0x1000 == 0 && e.pa % 0x1000 == 0 && e.len % 0x1000 == 0
    && e.va + e.len <= 0x1_0000_0000 && e.pa + e.len <= 0x1_0000_0000
  }

  /** The part of e done so far. */
  function Done(e: Entry, size: nat): Entry
    requires size <= e.len
  {
    Entry(e.va, e.pa, e.len - size)
  }

  /** The block being filled, if it has been entered, is not one that e maps. */
  predicate InsideOthers(e: Entry, size: nat)
    requires size <= e.len
  {
    var va := e.va + (e.len - size);
    Congruent(e) && va % SZ_1M != 0 ==> !Whole(e, va / SZ_1M)
  }

  /** Nor is the 16M being filled, if it has been entered, one that e holds. */
  predicate InsideOther16M(e: Entry, size: nat)
    requires size <= e.len
  {
    var va := e.va + (e.len - size);
    va % SZ_16M != 0 ==> !Wide(e, va / SZ_16M)
  }

  /** The largest of the four sizes that fits here. */
  function StepSize(va: nat, pa: nat, size: nat): nat {
    if size >= SZ_16M && va % SZ_16M == 0 && pa % SZ_16M == 0 then SZ_16M
    else if size >= SZ_1M && va % SZ_1M == 0 && pa % SZ_1M == 0 then SZ_1M
    else if size >= SZ_64K && va % SZ_64K == 0 && pa % SZ_64K == 0 then SZ_64K
    else SZ_4K
  }

  /** The place reached in e: its virtual and physical address. */
  predicate At(e: Entry, size: nat, va: nat, pa: nat) {
    size <= e.len && va == e.va + (e.len - size) && pa == e.pa + (e.len - size)
  }

  lemma Aligned(e: Entry, size: nat, va: nat, pa: nat)
    requires Valid(e) && size % SZ_4K == 0 && At(e, size, va, pa)
    ensures va % SZ_4K == 0 && pa % SZ_4K == 0
  {
  }

  lemma CongruentAt(e: Entry, size: nat, va: nat, pa: nat)
    requires At(e, size, va, pa)
    ensures Congruent(e) <==> va % SZ_1M == pa % SZ_1M
  {
  }

  /** A block that a step below 1M completes began before the step, and e is not one to map it. */
  lemma SmallStepBlock(va: nat, step: nat, k: nat)
    requires step == SZ_64K || step == SZ_4K
    requires va % step == 0 && va < (k + 1) * SZ_1M <= va + step
    ensures va % SZ_1M != 0 && k == va / SZ_1M
  {
  }

  lemma SmallStepDue(e: Entry, size: nat, va: nat, pa: nat, step: nat, k: nat)
    requires At(e, size, va, pa) && InsideOthers(e, size) && step <= size && Congruent(e)
    requires (step == SZ_64K || step == SZ_4K) && va % step == 0
    ensures Whole(Done(e, size - step), k) <==> Whole(Done(e, size), k)
  {
    if Whole(Done(e, size - step), k) && !Whole(Done(e, size), k) { SmallStepBlock(va, step, k); }
  }

  lemma SameBlock(va: nat, step: nat)
    requires (step == SZ_64K || step == SZ_4K) && va % step == 0 && (va + step) % SZ_1M != 0
    ensures (va + step) / SZ_1M == va / SZ_1M
  {
    if step == SZ_64K {
      var u := va / SZ_64K;
      assert va == (u / 16) * SZ_1M + (u % 16) * SZ_64K;
    } else {
      var u := va / SZ_4K;
      assert va == (u / 256) * SZ_1M + (u % 256) * SZ_4K;
    }
  }

  lemma SmallStepInside(e: Entry, size: nat, va: nat, pa: nat, step: nat)
    requires At(e, size, va, pa) && InsideOthers(e, size) && step <= size && step == StepSize(va, pa, size)
    requires step < SZ_1M && va % step == 0
    ensures InsideOthers(e, size - step)
  {
    CongruentAt(e, size, va, pa);
    if Congruent(e) && (va + step) % SZ_1M != 0 {
      SameBlock(va, step);
      if va % SZ_1M == 0 { assert size < SZ_1M; }
    }
  }

  /** A step below 16M does not complete a 16M of e. */
  lemma LowStepEnds(va: nat, step: nat, n: nat)
    requires step in {SZ_1M, SZ_64K, SZ_4K} && va % step == 0 && va < (n + 1) * SZ_16M <= va + step
    ensures va % SZ_16M != 0 && n == va / SZ_16M
  {
  }

  lemma LowStepWide(e: Entry, size: nat, va: nat, pa: nat, step: nat, n: nat)
    requires At(e, size, va, pa) && InsideOther16M(e, size) && step <= size
    requires step in {SZ_1M, SZ_64K, SZ_4K} && va % step == 0
    ensures Wide(Done(e, size - step), n) <==> Wide(Done(e, size), n)
  {
    if Wide(Done(e, size - step), n) && !Wide(Done(e, size), n) { LowStepEnds(va, step, n); }
  }

  lemma Same16M(va: nat, step: nat)
    requires step in {SZ_1M, SZ_64K, SZ_4K} && va % step == 0 && (va + step) % SZ_16M != 0
    ensures (va + step) / SZ_16M == va / SZ_16M
  {
    if step == SZ_1M {
      var u := va / SZ_1M;
      assert va == (u / 16) * SZ_16M + (u % 16) * SZ_1M;
    } else if step == SZ_64K {
      var u := va / SZ_64K;
      assert va == (u / 256) * SZ_16M + (u % 256) * SZ_64K;
    } else {
      var u := va / SZ_4K;
      assert va == (u / 4096) * SZ_16M + (u % 4096) * SZ_4K;
    }
  }

  lemma Congruent16At(e: Entry, size: nat, va: nat, pa: nat)
    requires At(e, size, va, pa)
    ensures e.va % SZ_16M == e.pa % SZ_16M <==> va % SZ_16M == pa % SZ_16M
  {
  }

  lemma LowStepInside16M(e: Entry, size: nat, va: nat, pa: nat, step: nat)
    requires At(e, size, va, pa) && InsideOther16M(e, size) && step <= size && step == StepSize(va, pa, size)
    requires step < SZ_16M && va % step == 0
    ensures InsideOther16M(e, size - step)
  {
    Congruent16At(e, size, va, pa);
    if (va + step) % SZ_16M != 0 {
      Same16M(va, step);
    }
  }

  /** A step of n blocks adds just those blocks. */
  lemma BlockStepDue(e: Entry, size: nat, va: nat, pa: nat, n: nat, k: nat)
    requires At(e, size, va, pa) && n * SZ_1M <= size && va % SZ_1M == 0
    ensures Whole(Done(e, size - n * SZ_1M), k)
       <==> Whole(Done(e, size), k) || va / SZ_1M <= k < va / SZ_1M + n
    ensures va / SZ_1M <= k < va / SZ_1M + n ==> BlockPa(Done(e, size - n * SZ_1M), k) == pa + (k - va / SZ_1M) * SZ_1M
    ensures va / SZ_1M <= k < va / SZ_1M + n ==> !Whole(Done(e, size), k)
  {
  }

  /** A step of 16M adds that one. */
  lemma WideStep(e: Entry, size: nat, va: nat, pa: nat, n: nat)
    requires At(e, size, va, pa) && SZ_16M <= size && va % SZ_16M == 0 && pa % SZ_16M == 0
    ensures Wide(Done(e, size - SZ_16M), n) <==> Wide(Done(e, size), n) || n == va / SZ_16M
  {
    Congruent16At(e, size, va, pa);
  }

  lemma WideIsWhole(e: Entry, k: nat)
    requires Wide(e, k / 16)
    ensures Whole(e, k)
  {
  }

  /** The 16M, the 1M in it and the place in that of an address. */
  lemma Split(a: nat, b: nat, m: nat)
    requires b < 16 && m < SZ_1M
    ensures (a * SZ_16M + b * SZ_1M + m) % SZ_16M == b * SZ_1M + m
    ensures (a * SZ_16M + b * SZ_1M + m) % SZ_1M == m
  {
    Remainder16M(a, b * SZ_1M + m);
    Remainder1M(16 * a + b, m);
  }

  lemma Remainder16M(a: nat, r: nat)
    requires r < SZ_16M
    ensures (a * SZ_16M + r) % SZ_16M == r
  {
  }

  lemma Remainder1M(a: nat, r: nat)
    requires r < SZ_1M
    ensures (a * SZ_1M + r) % SZ_1M == r
  {
  }

  lemma SplitBlock(x: nat) returns (a: nat, b: nat)
    requires x % SZ_1M == 0
    ensures b < 16 && x == a * SZ_16M + b * SZ_1M
  {
    var u := x / SZ_1M;
    a, b := u / 16, u % 16;
  }

  lemma BlockOf16M(b: nat)
    ensures b * SZ_16M / SZ_1M == 16 * b
  {
  }

  lemma SlotOfLast(es: seq<Entry>, e: Entry, k: nat)
    ensures Slot(es + [e], k) == if Whole(e, k) && Congruent(e) then Descriptor(e, k) else Slot(es, k)
  {
    hide Whole, Congruent, Descriptor;
    assert (es + [e])[..|es|] == es;
  }

  lemma NothingDone(words: seq<nat>, es: seq<Entry>, e: Entry)
    requires TableOk(words, es)
    ensures TableOk(words, es + [Done(e, e.len)])
  {
    forall k: nat | k < 4096 ensures words[k] == Slot(es + [Done(e, e.len)], k) {
      SlotOfLast(es, Done(e, e.len), k);
    }
  }

  /** Two states of an entry give a block the same word if they agree whether it and its 16M are covered. */
  lemma SameSlot(es: seq<Entry>, e: Entry, size: nat, size': nat, k: nat)
    requires size <= e.len && size' <= e.len
    requires Congruent(e) ==> (Whole(Done(e, size'), k) <==> Whole(Done(e, size), k))
    requires Wide(Done(e, size'), k / 16) <==> Wide(Done(e, size), k / 16)
    ensures Slot(es + [Done(e, size')], k) == Slot(es + [Done(e, size)], k)
  {
    hide Wide, Slot;
    SlotOfLast(es, Done(e, size), k);
    SlotOfLast(es, Done(e, size'), k);
  }

  lemma SmallStepTable(words: seq<nat>, es: seq<Entry>, e: Entry, size: nat, va: nat, pa: nat, step: nat)
    requires At(e, size, va, pa) && TableOk(words, es + [Done(e, size)]) && step <= size
    requires InsideOthers(e, size) && InsideOther16M(e, size)
    requires (step == SZ_64K || step == SZ_4K) && va % step == 0
    ensures TableOk(words, es + [Done(e, size - step)])
  {
    hide InsideOthers, InsideOther16M, Wide, Whole, Slot;
    forall k: nat | k < 4096 ensures words[k] == Slot(es + [Done(e, size - step)], k) {
      if Congruent(e) { SmallStepDue(e, size, va, pa, step, k); }
      LowStepWide(e, size, va, pa, step, k / 16);
      SameSlot(es, e, size, size - step, k);
    }
  }

  /** A section's word. */
  lemma NewSection(es: seq<Entry>, e: Entry, size: nat, va: nat, pa: nat, k: nat)
    requires At(e, size, va, pa) && InsideOther16M(e, size) && SZ_1M <= size
    requires va % SZ_1M == 0 && pa % SZ_1M == 0 && k == va / SZ_1M
    ensures Slot(es + [Done(e, size - SZ_1M)], k) == pa + 2
  {
    hide InsideOther16M, Slot;
    var d := Done(e, size - SZ_1M);
    CongruentAt(e, size, va, pa);
    BlockStepDue(e, size, va, pa, 1, k);
    LowStepWide(e, size, va, pa, SZ_1M, k / 16);
    if Wide(d, k / 16) { WideIsWhole(Done(e, size), k); }
    SlotOfLast(es, d, k);
  }

  lemma SectionTable(words: seq<nat>, words': seq<nat>, es: seq<Entry>, e: Entry, size: nat, va: nat, pa: nat)
    requires At(e, size, va, pa) && TableOk(words, es + [Done(e, size)]) && InsideOther16M(e, size) && SZ_1M <= size
    requires va % SZ_1M == 0 && pa % SZ_1M == 0
    requires va / SZ_1M < |words| && words' == words[va / SZ_1M := pa + 2]
    ensures TableOk(words', es + [Done(e, size - SZ_1M)])
  {
    hide InsideOther16M, Wide, Whole, Slot;
    forall k: nat | k < 4096 ensures words'[k] == Slot(es + [Done(e, size - SZ_1M)], k) {
      if k == va / SZ_1M {
        NewSection(es, e, size, va, pa, k);
      } else {
        BlockStepDue(e, size, va, pa, 1, k);
        LowStepWide(e, size, va, pa, SZ_1M, k / 16);
        SameSlot(es, e, size, size - SZ_1M, k);
      }
    }
  }

  lemma BlocksOf16M(va: nat, k: nat)
    requires va % SZ_16M == 0
    ensures va / SZ_1M <= k < va / SZ_1M + 16 <==> k / 16 == va / SZ_16M
  {
    BlockOf16M(va / SZ_16M);
  }

  lemma RoundedDown(pa: nat, j: nat)
    requires pa % SZ_16M == 0 && j < 16
    ensures pa + j * SZ_1M - (pa + j * SZ_1M) % SZ_16M == pa
  {
    Remainder16M(pa / SZ_16M, j * SZ_1M);
  }

  /** A supersection's word, the same for its 16 blocks. */
  lemma NewSupersection(es: seq<Entry>, e: Entry, size: nat, va: nat, pa: nat, k: nat)
    requires At(e, size, va, pa) && SZ_16M <= size && va % SZ_16M == 0 && pa % SZ_16M == 0
    requires va / SZ_1M <= k < va / SZ_1M + 16
    ensures Slot(es + [Done(e, size - SZ_16M)], k) == pa + 0x4_0002
  {
    hide Wide, Slot;
    var d := Done(e, size - SZ_16M);
    Multiple16M(va);
    Multiple16M(pa);
    CongruentAt(e, size, va, pa);
    BlocksOf16M(va, k);
    BlockStepDue(e, size, va, pa, 16, k);
    WideStep(e, size, va, pa, k / 16);
    RoundedDown(pa, k - va / SZ_1M);
    SlotOfLast(es, d, k);
  }

  lemma Multiple16M(x: nat)
    requires x % SZ_16M == 0
    ensures x % SZ_1M == 0
  {
  }

  lemma BlockFits(e: Entry, size: nat, va: nat, pa: nat, n: nat)
    requires Valid(e) && At(e, size, va, pa) && n * SZ_1M <= size && va % SZ_1M == 0
    ensures va / SZ_1M + n <= 4096
  {
  }

  method FillSixteen(l1: array<nat>, index: nat, word: nat)
    requires index + 16 <= l1.Length
    modifies l1
    ensures forall k: nat | k < l1.Length :: l1[k] == if index <= k < index + 16 then word else old(l1[k])
  {
    for j := 0 to 16
      invariant forall k: nat | k < l1.Length :: l1[k] == if index <= k < index + j then word else old(l1[k])
    {
      l1[index + j] := word;
    }
  }

  /** One supersection: the same word in 16 slots. */
  method ProgramSupersection(l1: array<nat>, ghost es: seq<Entry>, ghost e: Entry, ghost size: nat, va: nat, pa: nat)
    requires l1.Length == 4096 && Valid(e) && At(e, size, va, pa) && TableOk(l1[..], es + [Done(e, size)])
    requires size >= SZ_16M && va % SZ_16M == 0 && pa % SZ_16M == 0
    modifies l1
    ensures TableOk(l1[..], es + [Done(e, size - SZ_16M)])
  {
    hide Valid, At, TableOk;
    ghost var words := l1[..];
    Multiple16M(va);
    BlockFits(e, size, va, pa, 16);
    FillSixteen(l1, va / SZ_1M, pa - pa % SZ_16M + SSECTION_FLAGS);
    SupersectionTable(words, l1[..], es, e, size, va, pa);
  }

  lemma SupersectionTable(words: seq<nat>, words': seq<nat>, es: seq<Entry>, e: Entry, size: nat, va: nat, pa: nat)
    requires At(e, size, va, pa) && TableOk(words, es + [Done(e, size)])
    requires size >= SZ_16M && va % SZ_16M == 0 && pa % SZ_16M == 0 && |words| == |words'| == 4096
    requires forall k: nat | k < 4096 ::
               words'[k] == if va / SZ_1M <= k < va / SZ_1M + 16 then pa + 0x4_0002 else words[k]
    ensures TableOk(words', es + [Done(e, size - SZ_16M)])
  {
    hide At, Wide, Whole, Slot;
    Multiple16M(va);
    forall k: nat | k < 4096 ensures words'[k] == Slot(es + [Done(e, size - SZ_16M)], k) {
      if va / SZ_1M <= k < va / SZ_1M + 16 {
        NewSupersection(es, e, size, va, pa, k);
      } else {
        BlocksOf16M(va, k);
        BlockStepDue(e, size, va, pa, 16, k);
        WideStep(e, size, va, pa, k / 16);
        SameSlot(es, e, size, size - SZ_16M, k);
      }
    }
  }

  method ProgramSection(l1: array<nat>, ghost es: seq<Entry>, ghost e: Entry, ghost size: nat, va: nat, pa: nat)
    requires l1.Length == 4096 && Valid(e) && At(e, size, va, pa) && TableOk(l1[..], es + [Done(e, size)])
    requires size >= SZ_1M && va % SZ_1M == 0 && pa % SZ_1M == 0 && InsideOther16M(e, size)
    modifies l1
    ensures TableOk(l1[..], es + [Done(e, size - SZ_1M)])
  {
    hide Valid, At, TableOk, InsideOther16M;
    ghost var words := l1[..];
    BlockFits(e, size, va, pa, 1);
    var index := va / SZ_1M;
    l1[index] := pa - pa % SZ_1M + SECTION_FLAGS;
    SectionTable(words, l1[..], es, e, size, va, pa);
  }

  lemma StartInside(e: Entry)
    ensures InsideOthers(e, e.len) && InsideOther16M(e, e.len)
  {
  }

  lemma BlockInside(e: Entry, size: nat, va: nat, pa: nat, step: nat)
    requires At(e, size, va, pa) && step <= size && va % SZ_1M == 0 && (step == SZ_16M || step == SZ_1M)
    ensures InsideOthers(e, size - step)
  {
  }

  lemma WideInside(e: Entry, size: nat, va: nat, pa: nat)
    requires At(e, size, va, pa) && SZ_16M <= size && va % SZ_16M == 0
    ensures InsideOther16M(e, size - SZ_16M)
  {
  }

  lemma StepFits(va: nat, pa: nat, size: nat)
    requires size > 0 && size % SZ_4K == 0 && va % SZ_4K == 0 && pa % SZ_4K == 0
    ensures var step := StepSize(va, pa, size);
            && step <= size && va % step == 0 && step in {SZ_16M, SZ_1M, SZ_64K, SZ_4K}
            && (step == SZ_1M ==> va % SZ_1M == 0 && pa % SZ_1M == 0)
            && (step == SZ_16M ==> va % SZ_16M == 0 && pa % SZ_16M == 0 && va % SZ_1M == 0)
  {
    if va % SZ_16M == 0 { Multiple16M(va); }
  }

  lemma SizeStaysAligned(size: nat, step: nat)
    requires size % SZ_4K == 0 && step <= size && step in {SZ_16M, SZ_1M, SZ_64K, SZ_4K}
    ensures (size - step) % SZ_4K == 0
  {
  }

  /** The inner loop of create_ttb: the greedy choice for one entry. */
  method ProgramEntry(l1: array<nat>, ghost es: seq<Entry>, e: Entry)
    requires l1.Length == 4096 && TableOk(l1[..], es) && Valid(e)
    modifies l1
    ensures TableOk(l1[..], es + [e])
  {
    hide TableOk, InsideOthers, InsideOther16M, Valid, StepSize;
    var size: nat, va: nat, pa: nat := e.len, e.va, e.pa;
    NothingDone(l1[..], es, e);
    StartInside(e);
    SizeIsAligned(e);
    while size > 0
      invariant At(e, size, va, pa) && size % SZ_4K == 0 && InsideOthers(e, size) && InsideOther16M(e, size)
      invariant TableOk(l1[..], es + [Done(e, size)])
      decreases size
    {
      Aligned(e, size, va, pa);
      StepFits(va, pa, size);
      var step := StepSize(va, pa, size);
      if step == SZ_16M {
        ProgramSupersection(l1, es, e, size, va, pa);
        BlockInside(e, size, va, pa, step);
        WideInside(e, size, va, pa);
      } else if step == SZ_1M {
        ProgramSection(l1, es, e, size, va, pa);
        BlockInside(e, size, va, pa, step);
        LowStepInside16M(e, size, va, pa, step);
      } else {
        SmallStepTable(l1[..], es, e, size, va, pa, step);
        SmallStepInside(e, size, va, pa, step);
        LowStepInside16M(e, size, va, pa, step);
      }
      SizeStaysAligned(size, step);
      size, va, pa := size - step, va + step, pa + step;
    }
    assert Done(e, 0) == e;
  }

  lemma SizeIsAligned(e: Entry)
    requires Valid(e)
    ensures e.len % SZ_4K == 0
  {
  }

  /** The entries create_ttb programs: up to the first with no physical address or no length. */
  function Programmed(table: seq<Entry>): seq<Entry> {
    if table == [] || table[0].pa == 0 || table[0].len == 0 then [] else [table[0]] + Programmed(table[1..])
  }

  lemma NextProgrammed(table: seq<Entry>, all: seq<Entry>, i: nat)
    requires i < |table| && i <= |all| && all == all[..i] + Programmed(table[i..])
    requires table[i].pa != 0 && table[i].len != 0
    ensures i < |all| && all[i] == table[i] && all[..i + 1] == all[..i] + [table[i]]
    ensures all == all[..i + 1] + Programmed(table[i + 1..])
  {
    assert table[i..][1..] == table[i + 1..];
    assert all[i..] == Programmed(table[i..]);
  }

  lemma ProgrammedEnds(table: seq<Entry>, i: nat)
    requires i < |table| && (table[i].pa == 0 || table[i].len == 0)
    ensures Programmed(table[i..]) == []
  {
  }

  lemma NothingProgrammed(words: seq<nat>)
    requires |words| == 4096 && forall k | 0 <= k < 4096 :: words[k] == 0
    ensures TableOk(words, [])
  {
  }

  /** create_ttb. */
  method CreateTtb(table: array<Entry>, l1: array<nat>)
    requires exists i | 0 <= i < table.Length :: table[i].pa == 0 || table[i].len == 0
    requires l1.Length == 4096 && forall k | 0 <= k < 4096 :: l1[k] == 0
    requires forall e | e in Programmed(table[..]) :: Valid(e)
    modifies l1
    ensures TableOk(l1[..], Programmed(table[..]))
  {
    hide Valid, TableOk, Programmed;
    ghost var t, all := table[..], Programmed(table[..]);
    ghost var end :| 0 <= end < table.Length && (table[end].pa == 0 || table[end].len == 0);
    var i := 0;
    assert t[0..] == t && all[..0] == [];
    NothingProgrammed(l1[..]);
    while table[i].pa != 0 && table[i].len != 0
      invariant 0 <= i <= end && i <= |all| && t == table[..] && all == all[..i] + Programmed(t[i..])
      invariant TableOk(l1[..], all[..i])
      decreases table.Length - i
    {
      NextProgrammed(t, all, i);
      ProgramEntry(l1, all[..i], table[i]);
      i := i + 1;
    }
    ProgrammedEnds(t, i);
    assert all[..i] == all;
  }

  /** No address lies in two entries. */
  ghost predicate Disjoint(es: seq<Entry>) {
    forall i: nat, j: nat, va: nat | i < |es| && j < |es| && In(es[i], va) && In(es[j], va) :: i == j
  }

  lemma {:induction false} LookupAt(es: seq<Entry>, i: nat, va: nat)
    requires Disjoint(es) && i < |es| && In(es[i], va)
    ensures Lookup(es, va) == Some(es[i].pa + (va - es[i].va))
  {
    if i > 0 {
      assert !In(es[0], va);
      assert Disjoint(es[1..]) by {
        forall a: nat, b: nat, x: nat | a < |es[1..]| && b < |es[1..]| && In(es[1..][a], x) && In(es[1..][b], x)
          ensures a == b
        {
          assert In(es[a + 1], x) && In(es[b + 1], x);
        }
      }
      LookupAt(es[1..], i - 1, va);
    }
  }

  lemma {:induction false} LookupNowhere(es: seq<Entry>, va: nat)
    requires forall i: nat | i < |es| :: !In(es[i], va)
    ensures Lookup(es, va) == None
  {
    if es != [] { LookupNowhere(es[1..], va); }
  }

  /** A slot that is not zero holds the word of some entry for its block. */
  lemma {:induction false} SlotFrom(es: seq<Entry>, k: nat) returns (i: nat)
    requires Slot(es, k) != 0
    ensures i < |es| && Whole(es[i], k) && Congruent(es[i]) && Slot(es, k) == Descriptor(es[i], k)
  {
    hide Descriptor, Whole, Congruent;
    var e := es[|es| - 1];
    if Whole(e, k) && Congruent(e) { i := |es| - 1; } else { i := SlotFrom(es[..|es| - 1], k); }
  }

  lemma DescriptorIsNotZero(e: Entry, k: nat)
    requires Whole(e, k)
    ensures Descriptor(e, k) != 0
  {
    hide Wide, BlockPa;
  }

  lemma {:induction false} SlotNowhere(es: seq<Entry>, k: nat, i: nat)
    requires Slot(es, k) == 0 && i < |es|
    ensures !(Whole(es[i], k) && Congruent(es[i]))
  {
    hide Descriptor, Whole, Congruent;
    var e := es[|es| - 1];
    if Whole(e, k) { DescriptorIsNotZero(e, k); }
    if i < |es| - 1 { SlotNowhere(es[..|es| - 1], k, i); }
  }

  /** The last fitting entry decides: no later one can map the block. */
  lemma {:induction false} LastDecides(es: seq<Entry>, k: nat, i: nat)
    requires i < |es| && Whole(es[i], k) && Congruent(es[i])
    requires forall j | i < j < |es| :: !(Whole(es[j], k) && Congruent(es[j]))
    ensures Slot(es, k) == Descriptor(es[i], k)
  {
    hide Descriptor, Whole, Congruent;
    if i < |es| - 1 { LastDecides(es[..|es| - 1], k, i); }
  }

  /** Bits 0, 1 and 18, and the low 20 and 24 bits, of a word a * 16M + b * 1M + m. */
  lemma WordBits(a: nat, b: nat, m: nat, word: nat)
    requires b < 16 && m < SZ_1M && word == a * SZ_16M + b * SZ_1M + m
    ensures word % 4 == m % 4 && word / 0x4_0000 % 2 == m / 0x4_0000 % 2
    ensures word / 0x100_0000 == a && word / 0x10_0000 == 16 * a + b
    ensures word % 0x10_0000 == m && (b == 0 ==> word % 0x100_0000 == m)
  {
    LowBits(16 * a + b, m);
  }

  lemma LowBits(q: nat, m: nat)
    requires m < SZ_1M
    ensures (q * SZ_1M + m) % 4 == m % 4 && (q * SZ_1M + m) / 0x4_0000 % 2 == m / 0x4_0000 % 2
  {
    var c, d := m / 0x4_0000, m % 0x4_0000;
    Quarter(4 * q + c, d);
    Even(2 * q, c);
    Fourth(q * 0x4_0000, m);
  }

  lemma Quarter(x: nat, d: nat)
    requires d < 0x4_0000
    ensures (x * 0x4_0000 + d) / 0x4_0000 == x
  {
  }

  lemma Even(x: nat, c: nat)
    ensures (2 * x + c) % 2 == c % 2
  {
  }

  lemma Fourth(x: nat, m: nat)
    ensures (4 * x + m) % 4 == m % 4
  {
  }

  /** A section's word ends in 0x00002 and a supersection's in 0x040002. */
  lemma DescriptorBits(e: Entry, k: nat)
    requires Whole(e, k) && Congruent(e)
    ensures Descriptor(e, k) % 4 == 2
    ensures Descriptor(e, k) / 0x4_0000 % 2 == 1 <==> Wide(e, k / 16)
    ensures Wide(e, k / 16) ==> Descriptor(e, k) % 0x100_0000 == 0x4_0002
    ensures !Wide(e, k / 16) ==> Descriptor(e, k) % 0x10_0000 == 2
  {
    hide Wide;
    BlockPaAligned(e, k);
    var base := BlockPa(e, k);
    var a, b := SplitBlock(base);
    Split(a, b, 0);
    WordBits(a, b, 2, a * SZ_16M + b * SZ_1M + 2);
    WordBits(a, 0, 0x4_0002, a * SZ_16M + 0x4_0002);
  }

  lemma BlockPaAligned(e: Entry, k: nat)
    requires Whole(e, k) && Congruent(e)
    ensures BlockPa(e, k) % SZ_1M == 0
  {
  }

  /** Each word left by create_ttb is zero, a section or a supersection, and the latter exactly if the last entry
      that can map the block covers all of its 16M, at the same place within 16M on both sides. */
  lemma TableShape(words: seq<nat>, es: seq<Entry>, k: nat)
    requires TableOk(words, es) && k < 4096
    ensures words[k] == 0 || words[k] % 4 == 2
    ensures words[k] / 0x4_0000 % 2 == 1 ==> words[k] % 0x100_0000 == 0x4_0002
    ensures words[k] != 0 && words[k] / 0x4_0000 % 2 == 0 ==> words[k] % 0x10_0000 == 2
    ensures words[k] == 0 <==> forall e | e in es :: !(Whole(e, k) && Congruent(e))
    ensures forall i | 0 <= i < |es| && Whole(es[i], k) && Congruent(es[i])
                       && (forall j | i < j < |es| :: !(Whole(es[j], k) && Congruent(es[j]))) ::
              words[k] / 0x4_0000 % 2 == 1 <==> Wide(es[i], k / 16)
  {
    hide Descriptor, Wide, Whole, Congruent, Slot;
    if words[k] == 0 {
      forall i: nat | i < |es| ensures !(Whole(es[i], k) && Congruent(es[i])) { SlotNowhere(es, k, i); }
    } else {
      var i := SlotFrom(es, k);
      DescriptorBits(es[i], k);
      assert es[i] in es;
    }
    forall i: nat | i < |es| && Whole(es[i], k) && Congruent(es[i])
                  && (forall j | i < j < |es| :: !(Whole(es[j], k) && Congruent(es[j])))
      ensures words[k] / 0x4_0000 % 2 == 1 <==> Wide(es[i], k / 16)
    {
      LastDecides(es, k, i);
      DescriptorBits(es[i], k);
    }
  }

  /** A supersection's 16M is in the same place on both sides. */
  lemma WidePlaces(e: Entry, k: nat, a: nat, b: nat)
    requires Whole(e, k) && Wide(e, k / 16) && b < 16 && BlockPa(e, k) == a * SZ_16M + b * SZ_1M
    ensures b == k % 16
  {
  }

  lemma VaPlaces(va: nat)
    ensures va % 0x100_0000 == va / 0x10_0000 % 16 * SZ_1M + va % 0x10_0000
  {
  }

  lemma MappedWord(e: Entry, k: nat, va: nat)
    requires Whole(e, k) && Congruent(e) && va / SZ_1M == k
    ensures Translate(Descriptor(e, k), va) == Some(BlockPa(e, k) + va % SZ_1M)
  {
    hide Wide;
    BlockPaAligned(e, k);
    var a, b := SplitBlock(BlockPa(e, k));
    Split(a, b, 0);
    WordBits(a, b, 2, a * SZ_16M + b * SZ_1M + 2);
    WordBits(a, 0, 0x4_0002, a * SZ_16M + 0x4_0002);
    VaPlaces(va);
    if Wide(e, k / 16) { WidePlaces(e, k, a, b); }
  }

  lemma InBlock(e: Entry, va: nat)
    requires Whole(e, va / SZ_1M)
    ensures In(e, va) && BlockPa(e, va / SZ_1M) + va % SZ_1M == e.pa + (va - e.va)
    ensures Congruent(e) ==> BlockPa(e, va / SZ_1M) % SZ_1M == 0
  {
  }

  /** The block of va lies inside the entry that holds va, and both its addresses agree within 1M. */
  ghost predicate Mappable(es: seq<Entry>, va: nat) {
    exists i: nat :: i < |es| && Whole(es[i], va / SZ_1M) && Congruent(es[i])
  }

  /** For disjoint entries the table sends va where the lookup does exactly when va can be mapped by a section
      or supersection, and else its slot is zero. */
  lemma TableAgrees(words: seq<nat>, es: seq<Entry>, va: nat)
    requires TableOk(words, es) && Disjoint(es) && va < 0x1_0000_0000
    ensures Mappable(es, va) ==> Lookup(es, va).Some? && Translate(words[va / SZ_1M], va) == Lookup(es, va)
    ensures !Mappable(es, va) ==> words[va / SZ_1M] == 0
    ensures Translate(words[va / SZ_1M], va) == Lookup(es, va) <==> Mappable(es, va) || Lookup(es, va) == None
  {
    var k := va / SZ_1M;
    if words[k] != 0 {
      var i := SlotFrom(es, k);
      InBlock(es[i], va);
      MappedWord(es[i], k, va);
      LookupAt(es, i, va);
    } else {
      forall i: nat | i < |es| ensures !(Whole(es[i], k) && Congruent(es[i])) { SlotNowhere(es, k, i); }
    }
  }

  /** So with 1M-aligned entries the table and the lookup agree everywhere. */
  lemma AlignedTableAgrees(words: seq<nat>, es: seq<Entry>, va: nat)
    requires TableOk(words, es) && Disjoint(es) && va < 0x1_0000_0000
    requires forall e | e in es :: e.va % SZ_1M == 0 && e.pa % SZ_1M == 0 && e.len % SZ_1M == 0
    ensures Translate(words[va / SZ_1M], va) == Lookup(es, va)
    ensures Lookup(es, va) == None ==> words[va / SZ_1M] == 0
  {
    TableAgrees(words, es, va);
    if i: nat :| i < |es| && In(es[i], va) {
      AlignedWhole(es[i], va);
    } else {
      LookupNowhere(es, va);
    }
  }

  lemma AlignedWhole(e: Entry, va: nat)
    requires In(e, va) && e.va % SZ_1M == 0 && e.len % SZ_1M == 0
    ensures Whole(e, va / SZ_1M)
  {
  }

  /** The generator and the lookup use the same entries exactly if all those the lookup uses have a physical
      address; behind the end of the table anything may stand. */
  lemma {:induction false} ProgrammedIsUsed(table: seq<Entry>)
    ensures Programmed(table) == Used(table) <==> forall e | e in Used(table) :: e.pa != 0
  {
    if table != [] {
      ProgrammedIsUsed(table[1..]);
      if table[0].len != 0 {
        var rest := Used(table[1..]);
        assert Used(table) == [table[0]] + rest && table[0] in Used(table);
        assert forall e | e in rest :: e in Used(table);
        if table[0].pa != 0 { assert Programmed(table)[1..] == Programmed(table[1..]) && Used(table)[1..] == rest; }
      }
    }
  }
}
