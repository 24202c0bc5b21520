/** The RCM server's function tables: a symbol's index holds its slot and a key, so that the index of a
    removed symbol is refused. Names and addresses stand for strings and pointers; address 0 is NULL. */
module SymbolTable {
  import opened Wrappers

  const MAX_TABLES: nat := 9
  const KEY_RESET: nat := 0x7FF
  const KEY_UNIT: nat := 0x10_0000
  const STATIC: nat := 0x8000_0000

  /** serial is history: the count of keys issued when this slot's was; an empty slot has address 0. */
  datatype Slot = Slot(name: Option<string>, addr: nat, key: nat, serial: nat)

  const EMPTY := Slot(None, 0, 0, 0)

  /** Slots of dynamic table i: 32, 64, ... 4096. */
  function Size(i: nat): nat { if i <= 1 then 32 else 2 * Size(i - 1) }

  function NextKey(key: nat): nat { if key <= 1 then KEY_RESET else key - 1 }

  /** The n-th key issued. */
  function KeyOf(n: nat): nat
    requires n > 0
  {
    KEY_RESET - (n - 1) % KEY_RESET
  }

  lemma KeySteps(n: nat)
    ensures KeyOf(n + 1) == NextKey(if n == 0 then 0 else KeyOf(n))
    ensures n > 0 ==> 1 <= KeyOf(n) <= KEY_RESET
  {
    if n > 0 {
      var q, r := (n - 1) / KEY_RESET, (n - 1) % KEY_RESET;
      if r == KEY_RESET - 1 { assert n == (q + 1) * KEY_RESET; } else { assert n % KEY_RESET == r + 1; }
    }
  }

  /** Two keys are equal when a whole number of cycles lies between them. */
  lemma SameKey(m: nat, n: nat)
    requires 0 < m <= n
    ensures KeyOf(m) == KeyOf(n) <==> (n - m) % KEY_RESET == 0
  {
    var a, b := (m - 1) % KEY_RESET, (n - 1) % KEY_RESET;
    var p, q := (m - 1) / KEY_RESET, (n - 1) / KEY_RESET;
    assert n - m == (q - p) * KEY_RESET + (b - a);
  }

  /** Keys issued fewer than 2047 apart differ, and after 2047 the same one comes again. */
  lemma KeyCycle(m: nat, n: nat)
    requires 0 < m
    ensures 1 <= KeyOf(m) <= 2047 && KeyOf(m + 2047) == KeyOf(m)
    ensures m < n < m + 2047 ==> KeyOf(m) != KeyOf(n)
  {
    KeySteps(m);
    SameKey(m, m + 2047);
    if m < n < m + 2047 { SameKey(m, n); }
  }

  function Index(key: nat, i: nat, j: nat): nat { key * KEY_UNIT + i * 4096 + j }

  /** The fields of an index. */
  function KeyField(idx: nat): nat { idx / KEY_UNIT % 0x800 }

  function TableField(idx: nat): nat { idx / 4096 % 16 }

  function OffsetField(idx: nat): nat { idx % 4096 }

  lemma IndexFields(key: nat, i: nat, j: nat)
    requires key < 0x800 && i < 16 && j < 4096
    ensures Index(key, i, j) < STATIC
    ensures Index(key, i, j) == key * 0x10_0000 + i * 0x1000 + j
    ensures KeyField(Index(key, i, j)) == key && TableField(Index(key, i, j)) == i && OffsetField(Index(key, i, j)) == j
  {
    var low := i * 4096 + j;
    Quotient(key, low);
    Quotient4096(key * 256 + i, j);
    assert Index(key, i, j) == (key * 256 + i) * 4096 + j;
    Remainder16(key * 16, i);
  }

  lemma Quotient(a: nat, r: nat)
    requires r < KEY_UNIT
    ensures (a * KEY_UNIT + r) / KEY_UNIT == a
  {
  }

  lemma Quotient4096(a: nat, r: nat)
    requires r < 4096
    ensures (a * 4096 + r) / 4096 == a && (a * 4096 + r) % 4096 == r
  {
  }

  lemma Remainder16(a: nat, r: nat)
    requires r < 16
    ensures (a * 16 + r) % 16 == r
  {
  }

  lemma Sizes()
    ensures Size(1) == 32 && Size(2) == 64 && Size(3) == 128 && Size(4) == 256
    ensures Size(5) == 512 && Size(6) == 1024 && Size(7) == 2048 && Size(8) == 4096
    ensures Size(1) + Size(2) + Size(3) + Size(4) + Size(5) + Size(6) + Size(7) + Size(8) == 8160
  {
  }

  lemma SizeBound(i: nat)
    requires i < MAX_TABLES
    ensures 0 < Size(i) <= 4096
  {
    Sizes();
  }

  /** A dynamic slot is cleared, or carries the key of its serial number. */
  predicate SlotOk(s: Slot, issued: nat) {
    if s.key == 0 then s.addr == 0 else 1 <= s.serial <= issued && s.key == KeyOf(s.serial)
  }

  ghost predicate TablesOk(tabs: seq<seq<Slot>>, issued: nat) {
    && |tabs| == 9 && |tabs[0]| <= 0x1_0000
    && (forall i | 1 <= i < 9 :: tabs[i] == [] || |tabs[i]| == Size(i))
    && forall i, j | 1 <= i < 9 && 0 <= j < |tabs[i]| :: SlotOk(tabs[i][j], issued)
  }

  ghost predicate Live(tabs: seq<seq<Slot>>, i: nat, j: nat) {
    1 <= i < |tabs| && j < |tabs[i]| && tabs[i][j].addr != 0
  }

  /** A slot whose key has been issued: that of a live symbol, or of one added with a NULL function, which
      addSymbol takes for empty. */
  ghost predicate Keyed(tabs: seq<seq<Slot>>, i: nat, j: nat) {
    1 <= i < |tabs| && j < |tabs[i]| && tabs[i][j].key != 0
  }

  /** All slots of all dynamic tables are taken. */
  ghost predicate Full(tabs: seq<seq<Slot>>) {
    |tabs| == 9 && forall i: nat, j: nat | 1 <= i < 9 && j < Size(i) :: Live(tabs, i, j)
  }

  /** What getFxnAddr_P hands back: nothing, or on success a create function for offset 0 and a function for
      the others; a dynamic symbol at offset 0 gives neither. */
  datatype Found = Invalid | Create(addr: nat) | Fxn(addr: nat) | NoAddress

  function FxnAddr(tabs: seq<seq<Slot>>, idx: nat): Found
    requires |tabs| == 9
  {
    if idx >= STATIC then
      var j := idx % 0x1_0000;
      if j >= |tabs[0]| then Invalid else if j == 0 then Create(tabs[0][0].addr) else Fxn(tabs[0][j].addr)
    else
      var i, j := TableField(idx), OffsetField(idx);
      if !(0 < i < MAX_TABLES) || tabs[i] == [] || j >= |tabs[i]| then Invalid
      else if KeyField(idx) != tabs[i][j].key then Invalid
      else if j == 0 then NoAddress
      else Fxn(tabs[i][j].addr)
  }

  /** The tables and the number of keys issued. */
  datatype Tables = Tables(tabs: seq<seq<Slot>>, issued: nat)

  function Grown(tabs: seq<seq<Slot>>, i: nat): seq<seq<Slot>>
    requires i < |tabs|
  {
    if tabs[i] == [] then tabs[i := seq(Size(i), _ => EMPTY)] else tabs
  }

  /** A symbol goes into the empty slot j of table i, allocated if it was not. */
  ghost predicate Adds(s: Tables, s': Tables, name: string, addr: nat, i: nat, j: nat) {
    && 1 <= i < 9 == |s.tabs| && !Live(s.tabs, i, j)
    && var grown := Grown(s.tabs, i);
       && j < |grown[i]|
       && s' == Tables(grown[i := grown[i][j := Slot(Some(name), addr, KeyOf(s.issued + 1), s.issued + 1)]],
                       s.issued + 1)
  }

  ghost predicate Removes(s: Tables, s': Tables, name: string, i: nat, j: nat) {
    && 1 <= i < 9 == |s.tabs| && j < |s.tabs[i]| && s.tabs[i][j].name == Some(name)
    && s' == Tables(s.tabs[i := s.tabs[i][j := EMPTY]], s.issued)
  }

  /** Slot j of table i is the first with the name, static symbols first. */
  ghost predicate FirstNamed(tabs: seq<seq<Slot>>, name: string, i: nat, j: nat) {
    && i < |tabs| && j < |tabs[i]| && tabs[i][j].name == Some(name)
    && (forall a: nat, b: nat | a < i && b < |tabs[a]| :: tabs[a][b].name != Some(name))
    && (forall b: nat | b < j :: tabs[i][b].name != Some(name))
  }

  ghost predicate FirstIndex(tabs: seq<seq<Slot>>, name: string, idx: nat, i: nat, j: nat) {
    FirstNamed(tabs, name, i, j) && IsIndex(tabs, idx, i, j)
  }

  class Symbols {
    var tabs: seq<seq<Slot>>
    var key: nat
    // History: keys issued so far.
    var issued: nat

    ghost predicate Valid()
      reads this
    {
      TablesOk(tabs, issued) && key == if issued == 0 then 0 else KeyOf(issued)
    }

    constructor (fxnTabStatic: seq<Slot>)
      requires |fxnTabStatic| <= 0x1_0000
      ensures Valid() && issued == 0 && tabs[0] == fxnTabStatic && forall i | 1 <= i < 9 :: tabs[i] == []
    {
      tabs := [fxnTabStatic, [], [], [], [], [], [], [], []];
      key := 0;
      issued := 0;
    }

    /** RcmServer_getNextKey_P. */
    method GetNextKey() returns (k: nat)
      requires Valid()
      modifies this`key, this`issued
      ensures issued == old(issued) + 1 && k == key == KeyOf(issued)
      ensures k == if old(key) <= 1 then 2047 else old(key) - 1
    {
      KeySteps(issued);
      key := NextKey(key);
      issued := issued + 1;
      k := key;
    }

    /** The loops of addSymbol that look for an empty slot, allocating the next table when all are full. */
    method FindSlot() returns (i: nat, j: nat)
      requires Valid()
      modifies this`tabs
      ensures Valid() && 1 <= i <= MAX_TABLES
      ensures i == MAX_TABLES <==> Full(old(tabs))
      ensures i == MAX_TABLES ==> tabs == old(tabs)
      ensures i < MAX_TABLES ==> j < |tabs[i]| && tabs[i][j].addr == 0
      ensures i < MAX_TABLES ==> tabs == Grown(old(tabs), i) && !Live(old(tabs), i, j)
    {
      i, j := 1, 0;
      while i < MAX_TABLES
        invariant 1 <= i <= MAX_TABLES && tabs == old(tabs)
        invariant forall a: nat, b: nat | 1 <= a < i && b < Size(a) :: Live(tabs, a, b)
      {
        SizeBound(i);
        if tabs[i] == [] {
          tabs := tabs[i := seq(Size(i), _ => EMPTY)];
          j := 0;
          assert !Live(old(tabs), i, 0);
          return;
        }
        j := 0;
        while j < |tabs[i]|
          invariant 0 <= j <= |tabs[i]|
          invariant forall b: nat | b < j :: Live(tabs, i, b)
        {
          if tabs[i][j].addr == 0 {
            assert !Live(tabs, i, j);
            return;
          }
          j := j + 1;
        }
        i := i + 1;
      }
    }

    /** RcmServer_addSymbol, allocations succeeding: the new index, or None when the tables are full. */
    method AddSymbol(funcName: string, addr: nat) returns (index: Option<nat>)
      requires Valid()
      modifies this
      ensures Valid()
      ensures index.None? <==> Full(old(tabs))
      ensures index.None? ==> tabs == old(tabs) && issued == old(issued)
      ensures index.Some? ==>
                var i, j := TableField(index.value), OffsetField(index.value);
                && issued == old(issued) + 1 && index.value == key * 0x10_0000 + i * 0x1000 + j
                && Adds(Tables(old(tabs), old(issued)), Tables(tabs, issued), funcName, addr, i, j)
    {
      var i, j := FindSlot();
      if i == MAX_TABLES { return None; }
      var k := GetNextKey();
      KeySteps(issued);
      SizeBound(i);
      IndexFields(k, i, j);
      tabs := tabs[i := tabs[i][j := Slot(Some(funcName), addr, k, issued)]];
      index := Some(Index(k, i, j));
    }

    /** RcmServer_getSymIdx_P: the first slot with the name, static symbols first. */
    method GetSymIdx(name: string) returns (index: Option<nat>)
      requires Valid()
      ensures index.None? <==> forall i: nat, j: nat | i < MAX_TABLES && j < |tabs[i]| :: tabs[i][j].name != Some(name)
      ensures index.Some? ==> exists i: nat, j: nat :: FirstIndex(tabs, name, index.value, i, j)
    {
      for i := 0 to MAX_TABLES
        invariant forall a: nat, b: nat | a < i && b < |tabs[a]| :: tabs[a][b].name != Some(name)
      {
        for j := 0 to |tabs[i]|
          invariant forall b: nat | b < j :: tabs[i][b].name != Some(name)
        {
          if tabs[i][j].name == Some(name) {
            index := Some(if i == 0 then STATIC + j else Index(tabs[i][j].key, i, j));
            assert FirstIndex(tabs, name, index.value, i, j);
            return;
          }
        }
      }
      index := None;
    }

    /** RcmServer_removeSymbol. */
    method RemoveSymbol(name: string) returns (status: RemoveStatus)
      requires Valid()
      modifies this`tabs
      ensures Valid()
      ensures status == NotFound <==>
                forall i: nat, j: nat | i < MAX_TABLES && j < |old(tabs)[i]| :: old(tabs)[i][j].name != Some(name)
      ensures status != Removed ==> tabs == old(tabs)
      ensures status == Removed ==> exists i: nat, j: nat ::
                && FirstNamed(old(tabs), name, i, j)
                && Removes(Tables(old(tabs), old(issued)), Tables(tabs, issued), name, i, j)
      ensures status == IsStatic <==> exists j | 0 <= j < |old(tabs)[0]| :: old(tabs)[0][j].name == Some(name)
    {
      var fxnIdx := GetSymIdx(name);
      if fxnIdx.None? { return NotFound; }
      ghost var i: nat, j: nat :| FirstIndex(tabs, name, fxnIdx.value, i, j);
      IndexOfFirst(tabs, issued, name, fxnIdx.value, i, j);
      if fxnIdx.value >= STATIC { return IsStatic; }
      var tabIdx, tabOff := TableField(fxnIdx.value), OffsetField(fxnIdx.value);
      tabs := tabs[tabIdx := tabs[tabIdx][tabOff := EMPTY]];
      assert Removes(Tables(old(tabs), old(issued)), Tables(tabs, issued), name, tabIdx, tabOff);
      status := Removed;
    }

    /** RcmServer_getFxnAddr_P: a static index is good if its offset lies in the table, a dynamic one if its
        slot exists and carries the index's key; what it gives is the slot's. */
    method GetFxnAddr(fxnIdx: nat) returns (found: Found)
      requires Valid()
      ensures fxnIdx >= 0x8000_0000 ==> (found == Invalid <==> fxnIdx % 0x1_0000 >= |tabs[0]|)
      ensures fxnIdx < 0x8000_0000 ==>
                var i, j := fxnIdx / 0x1000 % 16, fxnIdx % 0x1000;
                (found != Invalid <==>
                   1 <= i < |tabs| && j < |tabs[i]| && tabs[i][j].key == fxnIdx / 0x10_0000 % 2048)
      ensures found != Invalid ==>
                var i, j := if fxnIdx >= 0x8000_0000 then 0 else fxnIdx / 0x1000 % 16,
                            if fxnIdx >= 0x8000_0000 then fxnIdx % 0x1_0000 else fxnIdx % 0x1000;
                && (j > 0 ==> found == Fxn(tabs[i][j].addr))
                && (j == 0 ==> found == if i == 0 then Create(tabs[0][0].addr) else NoAddress)
      ensures found == FxnAddr(tabs, fxnIdx)
    {
      if fxnIdx >= STATIC {
        var j := fxnIdx % 0x1_0000;
        if j >= |tabs[0]| { return Invalid; }
        if j == 0 { return Create(tabs[0][j].addr); }
        return Fxn(tabs[0][j].addr);
      }
      var k, i, j := KeyField(fxnIdx), TableField(fxnIdx), OffsetField(fxnIdx);
      if !(i > 0 && i < MAX_TABLES) || tabs[i] == [] || j >= |tabs[i]| || k != tabs[i][j].key { return Invalid; }
      found := if j == 0 then NoAddress else Fxn(tabs[i][j].addr);
    }
  }

  datatype RemoveStatus = NotFound | IsStatic | Removed

  /** The index getSymIdx_P gives for slot j of table i. */
  predicate IsIndex(tabs: seq<seq<Slot>>, idx: nat, i: nat, j: nat)
    requires i < |tabs| && j < |tabs[i]|
  {
    idx == if i == 0 then STATIC + j else Index(tabs[i][j].key, i, j)
  }

  lemma SlotKey(tabs: seq<seq<Slot>>, issued: nat, i: nat, j: nat)
    requires TablesOk(tabs, issued) && 1 <= i < 9 && j < |tabs[i]|
    ensures tabs[i][j].key < 0x800 && j < 4096 && (tabs[i][j].key == 0 ==> tabs[i][j].addr == 0)
  {
    SizeBound(i);
    assert SlotOk(tabs[i][j], issued);
    if tabs[i][j].key != 0 { KeySteps(tabs[i][j].serial); }
  }

  /** The index of the first slot with the name: its fields lead back to the slot, and it is a static one's
      exactly if some static symbol has the name. */
  lemma IndexOfFirst(tabs: seq<seq<Slot>>, issued: nat, name: string, idx: nat, i: nat, j: nat)
    requires TablesOk(tabs, issued) && FirstIndex(tabs, name, idx, i, j)
    ensures idx >= STATIC <==> i == 0
    ensures i == 0 <==> exists b | 0 <= b < |tabs[0]| :: tabs[0][b].name == Some(name)
    ensures i > 0 ==> TableField(idx) == i && OffsetField(idx) == j
  {
    if i > 0 {
      SlotKey(tabs, issued, i, j);
      IndexFields(tabs[i][j].key, i, j);
    } else {
      assert tabs[0][j].name == Some(name);
    }
  }

  /** Live symbols, and all others that have a key, have different indices. */
  lemma DistinctIndices(tabs: seq<seq<Slot>>, issued: nat, i: nat, j: nat, a: nat, b: nat)
    requires TablesOk(tabs, issued) && Keyed(tabs, i, j) && Keyed(tabs, a, b)
    requires Index(tabs[i][j].key, i, j) == Index(tabs[a][b].key, a, b)
    ensures i == a && j == b
  {
    SlotKey(tabs, issued, i, j);
    SlotKey(tabs, issued, a, b);
    IndexFields(tabs[i][j].key, i, j);
    IndexFields(tabs[a][b].key, a, b);
  }

  /** A dynamic symbol's index gives its address exactly when its offset is not 0. */
  lemma LiveResolves(tabs: seq<seq<Slot>>, issued: nat, i: nat, j: nat)
    requires TablesOk(tabs, issued) && Keyed(tabs, i, j)
    ensures FxnAddr(tabs, Index(tabs[i][j].key, i, j)) == if j == 0 then NoAddress else Fxn(tabs[i][j].addr)
  {
    SlotKey(tabs, issued, i, j);
    IndexFields(tabs[i][j].key, i, j);
  }

  /** The index issued as number n for slot j of table i is accepted later exactly when the slot's symbol has
      a number a whole number of key cycles away; in particular never once the slot is cleared. */
  lemma StaleIndex(tabs: seq<seq<Slot>>, issued: nat, i: nat, j: nat, n: nat)
    requires TablesOk(tabs, issued) && 1 <= i < 9 && j < |tabs[i]|
    requires 1 <= n <= issued && (tabs[i][j].key != 0 ==> n <= tabs[i][j].serial)
    ensures FxnAddr(tabs, Index(KeyOf(n), i, j)) != Invalid
       <==> Keyed(tabs, i, j) && (tabs[i][j].serial - n) % KEY_RESET == 0
  {
    KeySteps(n);
    SlotKey(tabs, issued, i, j);
    IndexFields(KeyOf(n), i, j);
    if tabs[i][j].key != 0 { SameKey(n, tabs[i][j].serial); }
  }

  ghost predicate Step(s: Tables, s': Tables) {
    || (exists name: string, addr: nat, i: nat, j: nat :: Adds(s, s', name, addr, i, j))
    || (exists name: string, i: nat, j: nat :: Removes(s, s', name, i, j))
  }

  ghost predicate Run(run: seq<Tables>) {
    && run != [] && TablesOk(run[0].tabs, run[0].issued)
    && forall k | 0 <= k < |run| - 1 :: Step(run[k], run[k + 1])
  }

  /** A slot issued with number n holds nothing older from then on. */
  ghost predicate NotOlder(s: Tables, i: nat, j: nat, n: nat) {
    && TablesOk(s.tabs, s.issued) && 1 <= i < 9 && j < |s.tabs[i]| && 1 <= n <= s.issued
    && (s.tabs[i][j].key != 0 ==> n <= s.tabs[i][j].serial)
  }

  lemma AddKeeps(s: Tables, s': Tables, name: string, addr: nat, a: nat, b: nat)
    requires TablesOk(s.tabs, s.issued) && Adds(s, s', name, addr, a, b)
    ensures TablesOk(s'.tabs, s'.issued)
  {
    KeySteps(s.issued);
    forall i, j | 1 <= i < 9 && 0 <= j < |s'.tabs[i]| ensures SlotOk(s'.tabs[i][j], s'.issued) {
      if i < |s.tabs| && j < |s.tabs[i]| { assert SlotOk(s.tabs[i][j], s.issued); }
    }
  }

  lemma RemoveKeeps(s: Tables, s': Tables, name: string, a: nat, b: nat)
    requires TablesOk(s.tabs, s.issued) && Removes(s, s', name, a, b)
    ensures TablesOk(s'.tabs, s'.issued)
  {
    forall i, j | 1 <= i < 9 && 0 <= j < |s'.tabs[i]| ensures SlotOk(s'.tabs[i][j], s'.issued) {
      assert SlotOk(s.tabs[i][j], s.issued);
    }
  }

  lemma StepKeeps(s: Tables, s': Tables)
    requires TablesOk(s.tabs, s.issued) && Step(s, s')
    ensures TablesOk(s'.tabs, s'.issued)
  {
    if name: string, addr: nat, i: nat, j: nat :| Adds(s, s', name, addr, i, j) {
      AddKeeps(s, s', name, addr, i, j);
    } else {
      var name: string, i: nat, j: nat :| Removes(s, s', name, i, j);
      RemoveKeeps(s, s', name, i, j);
    }
  }

  lemma StepNotOlder(s: Tables, s': Tables, i: nat, j: nat, n: nat)
    requires NotOlder(s, i, j, n) && Step(s, s')
    ensures NotOlder(s', i, j, n)
  {
    StepKeeps(s, s');
  }

  lemma {:induction false} RunKeeps(run: seq<Tables>, k: nat)
    requires Run(run) && k < |run|
    ensures TablesOk(run[k].tabs, run[k].issued)
  {
    if k > 0 {
      RunKeeps(run, k - 1);
      assert Step(run[k - 1], run[k - 1 + 1]);
      StepKeeps(run[k - 1], run[k]);
    }
  }

  lemma {:induction false} RunNotOlder(run: seq<Tables>, a: nat, b: nat, i: nat, j: nat, n: nat)
    requires Run(run) && a <= b < |run| && NotOlder(run[a], i, j, n)
    ensures NotOlder(run[b], i, j, n)
  {
    hide NotOlder, Step;
    if a < b {
      RunNotOlder(run, a, b - 1, i, j, n);
      assert Step(run[b - 1], run[b - 1 + 1]);
      StepNotOlder(run[b - 1], run[b], i, j, n);
    }
  }

  /** Over any run of additions and removals: the index of a symbol there at one time is accepted at a later time
      exactly when its slot is taken then, by it or by a symbol added a whole number of key cycles after it. */
  lemma IndexOverTime(run: seq<Tables>, a: nat, b: nat, i: nat, j: nat)
    requires Run(run) && a <= b < |run| && Keyed(run[a].tabs, i, j)
    ensures |run[b].tabs| == MAX_TABLES && i < MAX_TABLES && j < |run[a].tabs[i]| && j < |run[b].tabs[i]|
    ensures FxnAddr(run[b].tabs, Index(run[a].tabs[i][j].key, i, j)) != Invalid
       <==> Keyed(run[b].tabs, i, j) && (run[b].tabs[i][j].serial - run[a].tabs[i][j].serial) % KEY_RESET == 0
  {
    RunKeeps(run, a);
    var n := run[a].tabs[i][j].serial;
    assert SlotOk(run[a].tabs[i][j], run[a].issued);
    RunNotOlder(run, a, b, i, j, n);
    StaleIndex(run[b].tabs, run[b].issued, i, j, n);
  }

  /** Once a symbol's slot has been cleared, or taken again under a key issued fewer than 2047 later, its index is
      refused. */
  lemma RefusedOnceReused(run: seq<Tables>, a: nat, b: nat, i: nat, j: nat)
    requires Run(run) && a <= b < |run| && Keyed(run[a].tabs, i, j)
    requires Keyed(run[b].tabs, i, j) ==>
               run[b].tabs[i][j].serial != run[a].tabs[i][j].serial
               && run[b].tabs[i][j].serial < run[a].tabs[i][j].serial + 2047
    ensures |run[b].tabs| == MAX_TABLES && FxnAddr(run[b].tabs, Index(run[a].tabs[i][j].key, i, j)) == Invalid
  {
    IndexOverTime(run, a, b, i, j);
    RunKeeps(run, a);
    assert SlotOk(run[a].tabs[i][j], run[a].issued);
    RunNotOlder(run, a, b, i, j, run[a].tabs[i][j].serial);
  }
}
