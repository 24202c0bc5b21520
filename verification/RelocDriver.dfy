/** The loops that hand each relocation entry to its segment, with the cursor they carry from one segment to
    the next. */
module RelocDriver {
  /** A loaded segment; one without file contents is not relocated. */
  datatype Segment = Segment(inputVaddr: nat, memsz: nat, filesz: nat)

  predicate In(seg: Segment, offset: nat) { seg.inputVaddr <= offset < seg.inputVaddr + seg.memsz }

  /** The first entry at or after rid that lies in seg, else the length of the table. */
  function FirstIn(seg: Segment, table: seq<nat>, rid: nat): (a: nat)
    requires rid <= |table|
    ensures rid <= a <= |table| && (a < |table| ==> In(seg, table[a]))
    ensures forall k: nat | rid <= k < a :: !In(seg, table[k])
    decreases |table| - rid
  {
    if rid == |table| || In(seg, table[rid]) then rid else FirstIn(seg, table, rid + 1)
  }

  /** The first entry at or after rid that does not. */
  function EndOf(seg: Segment, table: seq<nat>, rid: nat): (b: nat)
    requires rid <= |table|
    ensures rid <= b <= |table| && (b < |table| ==> !In(seg, table[b]))
    ensures forall k: nat | rid <= k < b :: In(seg, table[k])
    decreases |table| - rid
  {
    if rid == |table| || !In(seg, table[rid]) then rid else EndOf(seg, table, rid + 1)
  }

  function Range(a: nat, b: nat): (r: seq<nat>)
    requires a <= b
    ensures |r| == b - a && forall k | 0 <= k < |r| :: r[k] == a + k
  {
    seq(b - a, (k: nat) => a + k)
  }

  /** A cursor past the end starts over. */
  function Start(cursor: nat, n: nat): nat { if cursor >= n then 0 else cursor }

  /** process_rel_table: `visits` lists the entries it handles. */
  method ProcessRelTable(seg: Segment, relTable: array<nat>, startRid: nat)
    returns (found: bool, rid: nat, visits: seq<nat>)
    ensures var t := relTable[..];
            var a := FirstIn(seg, t, Start(startRid, |t|));
            && found == (a < |t|) && rid == EndOf(seg, t, a) && visits == Range(a, rid)
  {
    var relnum := relTable.Length;
    ghost var t := relTable[..];
    ghost var a := FirstIn(seg, t, Start(startRid, relnum));
    rid := startRid;
    if rid >= relnum { rid := 0; }
    found, visits := false, [];
    while rid < relnum
      invariant Start(startRid, relnum) <= rid <= relnum
      invariant !found ==> a == FirstIn(seg, t, rid) && visits == []
      invariant found ==> a < rid && visits == Range(a, rid) && EndOf(seg, t, a) == EndOf(seg, t, rid)
      decreases relnum - rid
    {
      if In(seg, relTable[rid]) {
        found := true;
        visits := visits + [rid];
      } else if found {
        return;
      }
      rid := rid + 1;
    }
  }

  /** What process_got_relocs handles from segment s on with the given cursor. */
  function Visits(segs: seq<Segment>, table: seq<nat>, s: nat, cursor: nat): seq<nat>
    requires s <= |segs|
    decreases |segs| - s
  {
    if s == |segs| then []
    else if segs[s].filesz == 0 then Visits(segs, table, s + 1, cursor)
    else
      var a := FirstIn(segs[s], table, Start(cursor, |table|));
      var b := EndOf(segs[s], table, a);
      Range(a, b) + Visits(segs, table, s + 1, b)
  }

  lemma NextVisits(segs: seq<Segment>, table: seq<nat>, s: nat, cursor: nat, a: nat, b: nat)
    requires s < |segs|
    requires a == FirstIn(segs[s], table, Start(cursor, |table|)) && b == EndOf(segs[s], table, a)
    ensures segs[s].filesz == 0 ==> Visits(segs, table, s, cursor) == Visits(segs, table, s + 1, cursor)
    ensures segs[s].filesz != 0 ==>
              Visits(segs, table, s, cursor) == Range(a, b) + Visits(segs, table, s + 1, b)
  {
  }

  /** process_got_relocs, for one table. */
  method ProcessGotRelocs(segs: array<Segment>, relTable: array<nat>) returns (visits: seq<nat>)
    ensures visits == Visits(segs[..], relTable[..], 0, 0)
  {
    hide Visits, FirstIn, EndOf, Range;
    ghost var sg, t := segs[..], relTable[..];
    var relRid := 0;
    assert [] + Visits(sg, t, 0, 0) == Visits(sg, t, 0, 0);
    visits := [];
    for s := 0 to segs.Length
      invariant visits + Visits(sg, t, s, relRid) == Visits(sg, t, 0, 0)
    {
      ghost var a := FirstIn(sg[s], t, Start(relRid, |t|));
      NextVisits(sg, t, s, relRid, a, EndOf(sg[s], t, a));
      if segs[s].filesz != 0 {
        var found, rid, more := ProcessRelTable(segs[s], relTable, relRid);
        assert visits + (more + Visits(sg, t, s + 1, rid)) == visits + more + Visits(sg, t, s + 1, rid);
        relRid, visits := rid, visits + more;
      }
    }
    NoVisits(sg, t, relRid);
  }

  lemma NoVisits(segs: seq<Segment>, table: seq<nat>, cursor: nat)
    ensures Visits(segs, table, |segs|, cursor) == []
  {
  }

  /** Entry i lies in the memory of the file-backed segment s. */
  ghost predicate Owns(segs: seq<Segment>, table: seq<nat>, s: nat, i: nat) {
    && s < |segs| && i < |table| && segs[s].filesz != 0
    && segs[s].inputVaddr <= table[i] < segs[s].inputVaddr + segs[s].memsz
  }

  /** File-backed segments are disjoint. */
  ghost predicate Disjoint(segs: seq<Segment>, table: seq<nat>) {
    forall s: nat, u: nat, i: nat | Owns(segs, table, s, i) && Owns(segs, table, u, i) :: s == u
  }

  /** Entries of one segment stand together, in the order of the segments; others may stand between groups. */
  ghost predicate Grouped(segs: seq<Segment>, table: seq<nat>) {
    && (forall s: nat, u: nat, i: nat, j: nat | i < j && Owns(segs, table, s, i) && Owns(segs, table, u, j) :: s <= u)
    && (forall s: nat, i: nat, k: nat, j: nat | i < k < j && Owns(segs, table, s, i) && Owns(segs, table, s, j) &&
          k < |table| :: In(segs[s], table[k]))
  }

  /** u is the first file-backed segment at or after s. */
  ghost predicate NextBacked(segs: seq<Segment>, s: nat, u: nat) {
    s <= u < |segs| && segs[u].filesz != 0 && forall v | s <= v < u :: segs[v].filesz == 0
  }

  ghost predicate Together(segs: seq<Segment>, table: seq<nat>, s: nat) {
    forall i: nat, k: nat, j: nat | i < k < j && Owns(segs, table, s, i) && Owns(segs, table, s, j) ::
      Owns(segs, table, s, k)
  }

  ghost predicate OwnsNone(segs: seq<Segment>, table: seq<nat>, s: nat) {
    forall i: nat :: !Owns(segs, table, s, i)
  }

  ghost predicate AllBefore(segs: seq<Segment>, table: seq<nat>, s: nat, u: nat) {
    forall i: nat, j: nat | Owns(segs, table, s, i) && Owns(segs, table, u, j) :: i < j
  }

  /** After segment s the scan for u starts before all of u's entries: the cursor went back to 0, because s has
      no entries or has the table's last one, or it stands before them. */
  ghost predicate Reaches(segs: seq<Segment>, table: seq<nat>, s: nat, u: nat) {
    || OwnsNone(segs, table, s)
    || (|table| > 0 && Owns(segs, table, s, |table| - 1))
    || AllBefore(segs, table, s, u)
  }

  /** The condition from segment s on: each segment's entries stand together, and each file-backed segment's
      scan leaves the cursor where the next one's can start. */
  ghost predicate InReach(segs: seq<Segment>, table: seq<nat>, s: nat) {
    && (forall u: nat | u >= s :: Together(segs, table, u))
    && forall v: nat, u: nat | s <= v < |segs| && segs[v].filesz != 0 && NextBacked(segs, v + 1, u) ::
         Reaches(segs, table, v, u)
  }

  ghost predicate NoneBefore(segs: seq<Segment>, table: seq<nat>, u: nat, from: nat) {
    forall i: nat | Owns(segs, table, u, i) :: from <= i
  }

  /** The first scan from segment s on starts before all the entries of its segment. */
  ghost predicate StartsBefore(segs: seq<Segment>, table: seq<nat>, s: nat, cursor: nat) {
    forall u: nat | NextBacked(segs, s, u) :: NoneBefore(segs, table, u, Start(cursor, |table|))
  }

  ghost predicate Later(segs: seq<Segment>, table: seq<nat>, s: nat, i: nat) {
    exists u: nat :: u >= s && Owns(segs, table, u, i)
  }

  /** Every entry of segment s or a later one is handled from s on. */
  ghost predicate Complete(segs: seq<Segment>, table: seq<nat>, s: nat, cursor: nat)
    requires s <= |segs|
  {
    forall i: nat | Later(segs, table, s, i) :: i in Visits(segs, table, s, cursor)
  }

  lemma {:induction false} RangeCounts(a: nat, b: nat, i: nat)
    requires a <= b
    ensures multiset(Range(a, b))[i] == if a <= i < b then 1 else 0
    decreases b - a
  {
    if a < b {
      RangeCounts(a, b - 1, i);
      assert Range(a, b) == Range(a, b - 1) + [b - 1];
    }
  }

  /** No entry is handled twice, and none that lies in no file-backed segment. */
  lemma {:induction false} VisitedOnce(segs: seq<Segment>, table: seq<nat>, s: nat, cursor: nat, i: nat)
    requires Disjoint(segs, table) && s <= |segs|
    ensures multiset(Visits(segs, table, s, cursor))[i] <= if Later(segs, table, s, i) then 1 else 0
    decreases |segs| - s
  {
    if s < |segs| && segs[s].filesz == 0 {
      VisitedOnce(segs, table, s + 1, cursor, i);
    } else if s < |segs| {
      var a := FirstIn(segs[s], table, Start(cursor, |table|));
      var b := EndOf(segs[s], table, a);
      VisitedOnce(segs, table, s + 1, b, i);
      RangeCounts(a, b, i);
      assert a <= i < b ==> Owns(segs, table, s, i);
      assert !(Owns(segs, table, s, i) && Later(segs, table, s + 1, i));
    }
  }

  ghost predicate ScanOf(segs: seq<Segment>, table: seq<nat>, s: nat, cursor: nat, a: nat, b: nat) {
    && s < |segs| && segs[s].filesz != 0
    && a == FirstIn(segs[s], table, Start(cursor, |table|)) && b == EndOf(segs[s], table, a)
  }

  lemma Between(segs: seq<Segment>, table: seq<nat>, s: nat, i: nat, k: nat, j: nat)
    requires Together(segs, table, s) && i < k < j && Owns(segs, table, s, i) && Owns(segs, table, s, j)
    ensures Owns(segs, table, s, k)
  {
  }

  /** A scan handles all entries of its segment exactly if they stand together, none before its start. */
  lemma ScanIsWhole(segs: seq<Segment>, table: seq<nat>, s: nat, cursor: nat, a: nat, b: nat)
    requires ScanOf(segs, table, s, cursor, a, b)
    ensures (forall i: nat | Owns(segs, table, s, i) :: a <= i < b)
       <==> Together(segs, table, s) && NoneBefore(segs, table, s, Start(cursor, |table|))
  {
    if Together(segs, table, s) && NoneBefore(segs, table, s, Start(cursor, |table|)) {
      forall i: nat | Owns(segs, table, s, i) ensures a <= i < b {
        if i > b { Between(segs, table, s, a, b, i); }
      }
    }
  }

  lemma ReachesOne(segs: seq<Segment>, table: seq<nat>, s: nat, cursor: nat, a: nat, b: nat, u: nat)
    requires Disjoint(segs, table) && ScanOf(segs, table, s, cursor, a, b) && s != u
    requires forall i: nat | Owns(segs, table, s, i) :: a <= i < b
    ensures Reaches(segs, table, s, u) <==> NoneBefore(segs, table, u, Start(b, |table|))
  {
    forall i: nat ensures a <= i < b <==> Owns(segs, table, s, i) {}
    if a < b { assert Owns(segs, table, s, b - 1); }
  }

  /** If it does, the next scan starts before its segment's entries exactly as Reaches says. */
  lemma ScanReaches(segs: seq<Segment>, table: seq<nat>, s: nat, cursor: nat, a: nat, b: nat)
    requires Disjoint(segs, table) && ScanOf(segs, table, s, cursor, a, b)
    requires forall i: nat | Owns(segs, table, s, i) :: a <= i < b
    ensures StartsBefore(segs, table, s + 1, b)
       <==> forall u: nat | NextBacked(segs, s + 1, u) :: Reaches(segs, table, s, u)
  {
    hide Reaches, Owns, Disjoint, NoneBefore;
    forall u: nat | NextBacked(segs, s + 1, u)
      ensures Reaches(segs, table, s, u) <==> NoneBefore(segs, table, u, Start(b, |table|))
    {
      ReachesOne(segs, table, s, cursor, a, b, u);
    }
  }

  lemma CompleteSplits(segs: seq<Segment>, table: seq<nat>, s: nat, cursor: nat, a: nat, b: nat)
    requires Disjoint(segs, table) && ScanOf(segs, table, s, cursor, a, b)
    ensures Complete(segs, table, s, cursor)
       <==> (forall i: nat | Owns(segs, table, s, i) :: a <= i < b) && Complete(segs, table, s + 1, b)
  {
    var rest := Visits(segs, table, s + 1, b);
    assert Visits(segs, table, s, cursor) == Range(a, b) + rest;
    forall i: nat
      ensures i in Range(a, b) <==> a <= i < b
      ensures a <= i < b ==> Owns(segs, table, s, i)
      ensures i in rest ==> Later(segs, table, s + 1, i)
      ensures Later(segs, table, s, i) <==> Owns(segs, table, s, i) || Later(segs, table, s + 1, i)
      ensures !(Owns(segs, table, s, i) && Later(segs, table, s + 1, i))
    {
      if a <= i < b { assert Range(a, b)[i - a] == i; }
      VisitedOnce(segs, table, s + 1, b, i);
    }
  }

  /** The condition from s on is segment s's part and the rest. */
  lemma InReachSplits(segs: seq<Segment>, table: seq<nat>, s: nat)
    requires s < |segs|
    ensures InReach(segs, table, s)
       <==> && InReach(segs, table, s + 1) && Together(segs, table, s)
            && (segs[s].filesz != 0 ==> forall u: nat | NextBacked(segs, s + 1, u) :: Reaches(segs, table, s, u))
  {
  }

  lemma SkipsUnbacked(segs: seq<Segment>, table: seq<nat>, s: nat, cursor: nat)
    requires s < |segs| && segs[s].filesz == 0
    ensures Complete(segs, table, s, cursor) <==> Complete(segs, table, s + 1, cursor)
    ensures StartsBefore(segs, table, s, cursor) <==> StartsBefore(segs, table, s + 1, cursor)
    ensures Together(segs, table, s)
  {
    assert forall u: nat :: NextBacked(segs, s, u) <==> NextBacked(segs, s + 1, u);
    forall i: nat ensures Later(segs, table, s, i) <==> Later(segs, table, s + 1, i) {}
    assert Visits(segs, table, s, cursor) == Visits(segs, table, s + 1, cursor);
  }

  lemma {:induction false} CompleteIff(segs: seq<Segment>, table: seq<nat>, s: nat, cursor: nat)
    requires Disjoint(segs, table) && s <= |segs|
    ensures Complete(segs, table, s, cursor)
       <==> InReach(segs, table, s) && StartsBefore(segs, table, s, cursor)
    decreases |segs| - s
  {
    if s < |segs| && segs[s].filesz == 0 {
      CompleteIff(segs, table, s + 1, cursor);
      InReachSplits(segs, table, s);
      SkipsUnbacked(segs, table, s, cursor);
    } else if s < |segs| {
      var a := FirstIn(segs[s], table, Start(cursor, |table|));
      var b := EndOf(segs[s], table, a);
      CompleteSplits(segs, table, s, cursor, a, b);
      CompleteIff(segs, table, s + 1, b);
      InReachSplits(segs, table, s);
      ScanIsWhole(segs, table, s, cursor, a, b);
      FirstScan(segs, table, s, cursor);
      if forall i: nat | Owns(segs, table, s, i) :: a <= i < b { ScanReaches(segs, table, s, cursor, a, b); }
    }
  }

  lemma FirstScan(segs: seq<Segment>, table: seq<nat>, s: nat, cursor: nat)
    requires s < |segs| && segs[s].filesz != 0
    ensures StartsBefore(segs, table, s, cursor)
       <==> NoneBefore(segs, table, s, Start(cursor, |table|))
  {
    assert forall u: nat :: NextBacked(segs, s, u) <==> u == s;
  }

  /** With disjoint segments, every entry in a file-backed segment is handled exactly once if and only if each
      segment's entries stand together and for each two neighbouring file-backed segments the first has no
      entries, or has the table's last, or has all its entries before the second's. */
  lemma EachOnceIff(segs: seq<Segment>, table: seq<nat>)
    requires Disjoint(segs, table)
    ensures (forall u: nat, i: nat | Owns(segs, table, u, i) :: multiset(Visits(segs, table, 0, 0))[i] == 1)
       <==> InReach(segs, table, 0)
  {
    CompleteIff(segs, table, 0, 0);
    forall u: nat, i: nat | Owns(segs, table, u, i)
      ensures multiset(Visits(segs, table, 0, 0))[i] == 1 <==> i in Visits(segs, table, 0, 0)
    {
      VisitedOnce(segs, table, 0, 0, i);
    }
    assert forall i: nat :: Later(segs, table, 0, i) <==> exists u: nat :: Owns(segs, table, u, i);
  }

  lemma GroupedInReach(segs: seq<Segment>, table: seq<nat>)
    requires Disjoint(segs, table) && Grouped(segs, table)
    ensures InReach(segs, table, 0)
  {
    forall v: nat, u: nat | v < u ensures AllBefore(segs, table, v, u) {
      forall i: nat, j: nat | Owns(segs, table, v, i) && Owns(segs, table, u, j) ensures i < j {}
    }
  }

  /** So with entries grouped in segment order each entry that lies in a file-backed segment is handled exactly
      once, and in any order no other is. */
  lemma EachOnce(segs: seq<Segment>, table: seq<nat>, i: nat)
    requires Disjoint(segs, table) && Grouped(segs, table)
    ensures multiset(Visits(segs, table, 0, 0))[i] == if exists s: nat :: Owns(segs, table, s, i) then 1 else 0
  {
    GroupedInReach(segs, table);
    EachOnceIff(segs, table);
    VisitedOnce(segs, table, 0, 0, i);
  }

  /** Without the order an entry can be missed: the cursor passes the entry of the second segment while it
      finds that of the first, and starts over only for the third. */
  lemma OutOfOrderIsMissed()
    ensures var segs := [Segment(0, 10, 10), Segment(20, 10, 10), Segment(30, 10, 10)];
            Owns(segs, [25, 5, 35], 1, 0) && Disjoint(segs, [25, 5, 35]) && 0 !in Visits(segs, [25, 5, 35], 0, 0)
  {
    var segs := [Segment(0, 10, 10), Segment(20, 10, 10), Segment(30, 10, 10)];
    var table := [25, 5, 35];
    assert Range(1, 2) == [1] && Range(3, 3) == [] && Range(2, 3) == [2];
    assert FirstIn(segs[0], table, 0) == 1 && EndOf(segs[0], table, 1) == 2;
    assert FirstIn(segs[1], table, 2) == 3 && EndOf(segs[1], table, 3) == 3;
    assert FirstIn(segs[2], table, 0) == 2 && EndOf(segs[2], table, 2) == 3;
    assert Visits(segs, table, 2, 3) == [2] + Visits(segs, table, 3, 3);
    assert Visits(segs, table, 1, 2) == [] + Visits(segs, table, 2, 3);
    assert Visits(segs, table, 0, 0) == [1] + Visits(segs, table, 1, 2);
  }
}
