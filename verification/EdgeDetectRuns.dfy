/** Whole runs of the edge-detection kernel: between barriers 0, 1 and 2 every thread blurs, filters and
    thresholds its own rows, reading its neighbours' where a halo row lies there. The memory holds
    buffers 1, 2 and 3. */
module EdgeDetectRuns {
  import opened Arithmetic
  import opened Grid
  import opened Phases
  import opened Sweeps
  import opened EdgeDetect

  /** What happens after barrier call g - 1: the threshold of one iteration and the start of the next share
      a segment. */
  datatype Role = Fill | Blur | Sobel | Between | Last

  function RoleOf(iterations: nat, g: nat): Role {
    if g == 0 then Fill
    else if g % 3 == 1 then Blur
    else if g % 3 == 2 then Sobel
    else if g < 3 * iterations then Between
    else Last
  }

  function Written(s: nat, role: Role, a: nat): bool {
    match role
    case Fill => a < 3 * s
    case Blur => 2 * s <= a < 3 * s
    case Sobel => a < 2 * s
    case Between => a < 3 * s
    case Last => 2 * s <= a < 3 * s
  }

  function Passes(role: Role): nat {
    if role.Sobel? || role.Between? then 2 else 1
  }

  /** convolve2d, called by the owner of row i for its rows and their halo, writes pixel (i, j). */
  predicate OwnerWrites(n: nat, rows: Rows, i: nat, j: nat)
    ensures OwnerWrites(n, rows, i, j) ==> i > 0 && j > 0
  {
    OwnerFound(rows, i, |rows|);
    match Owner(rows, i)
    case None => false
    case Some(t) => Writes(n, HaloStart(rows[t].0), HaloEnd(n, rows[t].1), i, j)
  }

  lemma OwnerWritesInner(n: nat, rows: Rows, i: nat, j: nat)
    requires Partition(n, rows) && i < n
    ensures OwnerWrites(n, rows, i, j) <==> Inner(n, i, j)
  {
    RowHasOwner(n, rows, i);
    var t := Owner(rows, i).value;
    HaloWritesOwnRows(n, rows[t].0, rows[t].1, i, j);
  }

  /** convolve2d at cell c, from the buffer at `from` to the one at `to`. */
  function Convolve(n: nat, rows: Rows, from: nat, to: nat, kernel: Filter, c: nat, m: Memory): (m': Memory)
    requires n > 0 && to + c < |m|
    ensures |m'| == |m|
  {
    if OwnerWrites(n, rows, Row(n, c), Col(n, c)) then
      m[to + c := Convolved(View(n, from, m), kernel, Row(n, c), Col(n, c))]
    else m
  }

  function Initial(n: nat, c: nat, m: Memory): (m': Memory)
    requires n > 0 && c < RowAt(n, n) && |m| == 3 * RowAt(n, n)
    ensures |m'| == |m|
  {
    var s := RowAt(n, n);
    m[c := Ramp(Row(n, c), Col(n, c))][s + c := 0][2 * s + c := 0]
  }

  function Threshold(n: nat, c: nat, m: Memory): (m': Memory)
    requires c < RowAt(n, n) && |m| == 3 * RowAt(n, n)
    ensures |m'| == |m|
  {
    m[2 * RowAt(n, n) + c := Thresholded(m[c], m[RowAt(n, n) + c])]
  }

  /** The update of cell c: the body of the innermost loops. */
  function Update(n: nat, rows: Rows, role: Role, p: nat, c: nat, m: Memory): (m': Memory)
    ensures |m'| == |m|
  {
    var s := RowAt(n, n);
    if n == 0 || c >= s || |m| != 3 * s then m
    else match role
      case Fill => Initial(n, c, m)
      case Blur => Convolve(n, rows, 0, 2 * s, GAUSSIAN, c, m)
      case Sobel =>
        if p == 0 then Convolve(n, rows, 2 * s, 0, VERTICAL_SOBEL, c, m)
        else Convolve(n, rows, 2 * s, s, HORIZONTAL_SOBEL, c, m)
      case Between => if p == 0 then Threshold(n, c, m) else Initial(n, c, m)
      case Last => Threshold(n, c, m)
  }

  ghost function ConvolvedFrom(n: nat, from: nat, kernel: Filter, c: nat, m: Memory, was: int): int
    requires n > 0
  {
    if Inner(n, Row(n, c), Col(n, c)) then Convolved(View(n, from, m), kernel, Row(n, c), Col(n, c)) else was
  }

  /** What address a holds after p passes of a segment that started with m. */
  ghost function After(n: nat, role: Role, p: nat, a: nat, m: Memory): int {
    var s := RowAt(n, n);
    var c := CellOfThree(s, a);
    if a >= |m| then 0
    else if n == 0 || |m| != 3 * s || p == 0 || !Written(s, role, a) then m[a]
    else match role
      case Fill => if a < s then Ramp(Row(n, c), Col(n, c)) else 0
      case Blur => ConvolvedFrom(n, 0, GAUSSIAN, c, m, m[a])
      case Sobel =>
        if a < s then ConvolvedFrom(n, 2 * s, VERTICAL_SOBEL, c, m, m[a])
        else if p == 1 then m[a]
        else ConvolvedFrom(n, 2 * s, HORIZONTAL_SOBEL, c, m, m[a])
      case Between =>
        if p == 1 then if a < 2 * s then m[a] else Thresholded(m[c], m[s + c])
        else if a < s then Ramp(Row(n, c), Col(n, c)) else 0
      case Last => Thresholded(m[c], m[s + c])
  }

  ghost function EdgeSweep(n: nat, rows: Rows, iterations: nat): Sweep {
    Sweep(n, rows, 3, ThreeCalls(iterations), 3 * RowAt(n, n),
      (a: nat) => CellOfThree(RowAt(n, n), a),
      (g: nat) => Passes(RoleOf(iterations, g)),
      (g: nat, p: nat, c: nat, m: Memory) => Update(n, rows, RoleOf(iterations, g), p, c, m),
      (g: nat, a: nat) => Written(RowAt(n, n), RoleOf(iterations, g), a),
      (g: nat, p: nat, a: nat, m: Memory) => After(n, RoleOf(iterations, g), p, a, m))
  }

  lemma UpdateFrame(n: nat, rows: Rows, role: Role, p: nat, c: nat, m: Memory, a: nat)
    requires n > 0 && c < RowAt(n, n) && |m| == 3 * RowAt(n, n) && a < |m|
    requires !(Written(RowAt(n, n), role, a) && CellOfThree(RowAt(n, n), a) == c)
    ensures Update(n, rows, role, p, c, m)[a] == m[a]
  {
    hide Row, Col, RowAt, OwnerWrites, Inner, Convolved, View;
  }

  lemma UpdateTouches(sw: Sweep, n: nat, rows: Rows, iterations: nat, g: nat, p: nat, c: nat, m: Memory)
    requires sw == EdgeSweep(n, rows, iterations) && n > 0
    requires c < RowAt(n, n) && |m| == sw.size
    ensures Touches(sw, g, c, m, sw.update(g, p, c, m))
  {
    hide Update, RowAt, RoleOf;
    forall a: nat | a < |m| && !(sw.written(g, a) && sw.cellOf(a) == c) ensures sw.update(g, p, c, m)[a] == m[a] {
      UpdateFrame(n, rows, RoleOf(iterations, g), p, c, m, a);
    }
  }

  /** m1 and m2 hold the same buffer at base. */
  ghost predicate SameBuffer(n: nat, base: nat, m1: Memory, m2: Memory) {
    forall a: nat | base <= a < base + RowAt(n, n) && a < |m1| && a < |m2| :: m1[a] == m2[a]
  }

  lemma SameConvolved(n: nat, base: nat, m1: Memory, m2: Memory, kernel: Filter, i: nat, j: nat)
    requires Inner(n, i, j) && base + RowAt(n, n) <= |m1| == |m2| && SameBuffer(n, base, m1, m2)
    ensures Convolved(View(n, base, m1), kernel, i, j) == Convolved(View(n, base, m2), kernel, i, j)
  {
    forall a: nat, b: nat | i - 1 <= a <= i + 1 && j - 1 <= b <= j + 1
      ensures View(n, base, m1)(a, b) == View(n, base, m2)(a, b)
    {
      AtInside(n, a, b);
    }
    ConvolvedAlike(View(n, base, m1), View(n, base, m2), kernel, i, j);
  }

  /** The buffer a convolving segment reads. */
  function Source(s: nat, role: Role): nat { if role.Blur? then 0 else 2 * s }

  lemma AlikeBuffers(sw: Sweep, n: nat, rows: Rows, iterations: nat, g: nat, c: nat, m1: Memory, m2: Memory)
    requires sw == EdgeSweep(n, rows, iterations) && n > 0 && c < RowAt(n, n) && Alike(sw, g, c, m1, m2)
    ensures var role, s := RoleOf(iterations, g), RowAt(n, n);
            role.Blur? || role.Sobel? ==> SameBuffer(n, Source(s, role), m1, m2)
  {
    hide RowAt, Row, RoleOf;
  }

  /** convolve2d at a cell does what the whole-image convolution has there, as a function of its input. */
  lemma ConvolveIs(n: nat, rows: Rows, from: nat, to: nat, kernel: Filter, c: nat, m: Memory, m': Memory)
    requires n > 0 && Partition(n, rows) && c < RowAt(n, n) && to + c < |m| == |m'| && from + RowAt(n, n) <= |m|
    requires SameBuffer(n, from, m', m)
    ensures Convolve(n, rows, from, to, kernel, c, m') == m'[to + c := ConvolvedFrom(n, from, kernel, c, m, m'[to + c])]
  {
    RowBound(n, n, c);
    hide Row, Col, RowAt, OwnerWrites, Convolved, View, SameBuffer, Partition;
    OwnerWritesInner(n, rows, Row(n, c), Col(n, c));
    if Inner(n, Row(n, c), Col(n, c)) { SameConvolved(n, from, m', m, kernel, Row(n, c), Col(n, c)); }
  }

  lemma ConvolveSame(n: nat, rows: Rows, from: nat, to: nat, kernel: Filter, c: nat, m1: Memory, m2: Memory, a: nat)
    requires n > 0 && Partition(n, rows) && c < RowAt(n, n) && to + c < |m1| == |m2| && from + RowAt(n, n) <= |m1|
    requires SameBuffer(n, from, m1, m2) && a < |m1| && m1[a] == m2[a]
    ensures Convolve(n, rows, from, to, kernel, c, m1)[a] == Convolve(n, rows, from, to, kernel, c, m2)[a]
  {
    hide Row, Col, RowAt, Convolve, Convolved, View, Partition;
    ConvolveIs(n, rows, from, to, kernel, c, m2, m1);
    ConvolveIs(n, rows, from, to, kernel, c, m2, m2);
  }

  lemma UpdateSame(n: nat, rows: Rows, role: Role, p: nat, c: nat, m1: Memory, m2: Memory, a: nat)
    requires n > 0 && Partition(n, rows) && c < RowAt(n, n) && |m1| == |m2| == 3 * RowAt(n, n)
    requires role.Blur? || role.Sobel? ==> SameBuffer(n, Source(RowAt(n, n), role), m1, m2)
    requires m1[c] == m2[c] && m1[RowAt(n, n) + c] == m2[RowAt(n, n) + c]
    requires m1[2 * RowAt(n, n) + c] == m2[2 * RowAt(n, n) + c]
    requires a < |m1| && CellOfThree(RowAt(n, n), a) == c
    ensures Update(n, rows, role, p, c, m1)[a] == Update(n, rows, role, p, c, m2)[a]
  {
    hide Row, Col, RowAt, Convolve, SameBuffer, Partition;
    var s := RowAt(n, n);
    if role.Blur? {
      ConvolveSame(n, rows, 0, 2 * s, GAUSSIAN, c, m1, m2, a);
    } else if role.Sobel? {
      ConvolveSame(n, rows, 2 * s, 0, VERTICAL_SOBEL, c, m1, m2, a);
      ConvolveSame(n, rows, 2 * s, s, HORIZONTAL_SOBEL, c, m1, m2, a);
    }
  }

  lemma UpdateLocal(sw: Sweep, n: nat, rows: Rows, iterations: nat, g: nat, p: nat, c: nat, m1: Memory, m2: Memory)
    requires sw == EdgeSweep(n, rows, iterations) && n > 0 && Partition(n, rows)
    requires c < RowAt(n, n) && Alike(sw, g, c, m1, m2)
    ensures SameAt(sw, c, sw.update(g, p, c, m1), sw.update(g, p, c, m2))
  {
    hide Update, RowAt, RoleOf, Row, SameBuffer, Partition;
    AlikeBuffers(sw, n, rows, iterations, g, c, m1, m2);
    var s := RowAt(n, n);
    assert m1[c] == m2[c] && m1[s + c] == m2[s + c] && m1[2 * s + c] == m2[2 * s + c];
    forall a: nat | a < |m1| && sw.cellOf(a) == c
      ensures sw.update(g, p, c, m1)[a] == sw.update(g, p, c, m2)[a]
    {
      UpdateSame(n, rows, RoleOf(iterations, g), p, c, m1, m2, a);
    }
  }

  lemma ReachedBuffers(sw: Sweep, n: nat, rows: Rows, iterations: nat, g: nat, p: nat, c: nat, m: Memory, m': Memory)
    requires sw == EdgeSweep(n, rows, iterations) && n > 0 && c < RowAt(n, n) && Reached(sw, g, p, c, m, m')
    ensures var role, s := RoleOf(iterations, g), RowAt(n, n);
            role.Blur? || role.Sobel? ==> SameBuffer(n, Source(s, role), m', m)
  {
    hide RowAt, Row, RoleOf, After;
  }

  lemma ReachedCell(sw: Sweep, n: nat, rows: Rows, iterations: nat, g: nat, p: nat, c: nat,
                    m: Memory, m': Memory, a: nat)
    requires sw == EdgeSweep(n, rows, iterations) && n > 0 && Reached(sw, g, p, c, m, m')
    requires c < RowAt(n, n) && a < |m| && CellOfThree(RowAt(n, n), a) == c
    ensures m'[a] == After(n, RoleOf(iterations, g), p, a, m)
  {
    hide RowAt, Row, Col, RoleOf, ConvolvedFrom;
  }

  /** One update takes a cell from its value after p passes to its value after p + 1. */
  lemma UpdateValue(n: nat, rows: Rows, role: Role, p: nat, c: nat, m: Memory, m': Memory, a: nat)
    requires n > 0 && Partition(n, rows) && c < RowAt(n, n) && |m| == |m'| == 3 * RowAt(n, n) && p < Passes(role)
    requires role.Blur? || role.Sobel? ==> SameBuffer(n, Source(RowAt(n, n), role), m', m)
    requires m'[c] == After(n, role, p, c, m)
    requires m'[RowAt(n, n) + c] == After(n, role, p, RowAt(n, n) + c, m)
    requires m'[2 * RowAt(n, n) + c] == After(n, role, p, 2 * RowAt(n, n) + c, m)
    requires a < |m| && CellOfThree(RowAt(n, n), a) == c && Written(RowAt(n, n), role, a)
    ensures Update(n, rows, role, p, c, m')[a] == After(n, role, p + 1, a, m)
  {
    hide Row, Col, RowAt, Convolve, ConvolvedFrom, SameBuffer, Partition;
    var s := RowAt(n, n);
    if role.Blur? {
      ConvolveIs(n, rows, 0, 2 * s, GAUSSIAN, c, m, m');
    } else if role.Sobel? {
      ConvolveIs(n, rows, 2 * s, 0, VERTICAL_SOBEL, c, m, m');
      ConvolveIs(n, rows, 2 * s, s, HORIZONTAL_SOBEL, c, m, m');
    }
  }

  lemma UpdateReaches(sw: Sweep, n: nat, rows: Rows, iterations: nat, g: nat, p: nat, c: nat, m: Memory, m': Memory)
    requires sw == EdgeSweep(n, rows, iterations) && n > 0 && Partition(n, rows) && p < sw.passes(g)
    requires c < RowAt(n, n) && Reached(sw, g, p, c, m, m')
    ensures Updated(sw, g, p + 1, c, m, sw.update(g, p, c, m'))
  {
    hide Update, After, RowAt, RoleOf, Row, SameBuffer, Reached, Partition;
    var s := RowAt(n, n);
    ReachedSize(sw, g, p, c, m, m');
    ReachedBuffers(sw, n, rows, iterations, g, p, c, m, m');
    ReachedCell(sw, n, rows, iterations, g, p, c, m, m', c);
    ReachedCell(sw, n, rows, iterations, g, p, c, m, m', s + c);
    ReachedCell(sw, n, rows, iterations, g, p, c, m, m', 2 * s + c);
    forall a: nat | a < |m| && sw.written(g, a) && sw.cellOf(a) == c
      ensures sw.update(g, p, c, m')[a] == sw.after(g, p + 1, a, m)
    {
      UpdateValue(n, rows, RoleOf(iterations, g), p, c, m, m', a);
    }
  }

  lemma ReachedSize(sw: Sweep, g: nat, p: nat, c: nat, m: Memory, m': Memory)
    requires sw.n > 0 && Reached(sw, g, p, c, m, m')
    ensures |m| == |m'| == sw.size
  {
  }

  lemma SweepProper(n: nat, rows: Rows, iterations: nat)
    requires n > 0 && Partition(n, rows)
    ensures Proper(EdgeSweep(n, rows, iterations))
  {
    var sw := EdgeSweep(n, rows, iterations);
    RowMonotone(n, 0, n);
    forall g: nat, p: nat, c: nat, m: Memory | p < sw.passes(g) && c < RowAt(n, n) && |m| == sw.size
      ensures Touches(sw, g, c, m, sw.update(g, p, c, m))
    {
      UpdateTouches(sw, n, rows, iterations, g, p, c, m);
    }
    forall g: nat, p: nat, c: nat, m1: Memory, m2: Memory | p < sw.passes(g) && c < RowAt(n, n)
                                                          && Alike(sw, g, c, m1, m2)
      ensures SameAt(sw, c, sw.update(g, p, c, m1), sw.update(g, p, c, m2))
    {
      UpdateLocal(sw, n, rows, iterations, g, p, c, m1, m2);
    }
    forall g: nat, p: nat, c: nat, m: Memory, m': Memory | p < sw.passes(g) && c < RowAt(n, n)
                                                         && Reached(sw, g, p, c, m, m')
      ensures Updated(sw, g, p + 1, c, m, sw.update(g, p, c, m'))
    {
      UpdateReaches(sw, n, rows, iterations, g, p, c, m, m');
    }
  }

  /** What the buffers show after a segment. */
  ghost function Shown(n: nat, role: Role, buffer: nat, i: nat, j: nat): int {
    match role
    case Fill => if buffer == 0 then Ramp(i, j) else 0
    case Between => if buffer == 0 then Ramp(i, j) else 0
    case Blur => if buffer == 0 then Ramp(i, j) else if buffer == 1 then 0 else Blurred(n, i, j)
    case Sobel => FilteredOr(n, buffer, i, j, Blurred(n, i, j))
    case Last => FilteredOr(n, buffer, i, j, Edge(n, i, j))
  }

  ghost function FilteredOr(n: nat, buffer: nat, i: nat, j: nat, third: int): int {
    if buffer == 0 then Vertical(n, i, j) else if buffer == 1 then Horizontal(n, i, j) else third
  }

  ghost predicate ShowsAt(n: nat, role: Role, m: Memory, c: nat)
    requires n > 0 && c < RowAt(n, n) && |m| == 3 * RowAt(n, n)
  {
    var i, j, s := Row(n, c), Col(n, c), RowAt(n, n);
    && m[c] == Shown(n, role, 0, i, j) && m[s + c] == Shown(n, role, 1, i, j)
    && m[2 * s + c] == Shown(n, role, 2, i, j)
  }

  ghost predicate Shows(n: nat, role: Role, m: Memory)
    requires n > 0
  {
    |m| == 3 * RowAt(n, n) && forall c: nat | c < RowAt(n, n) :: ShowsAt(n, role, m, c)
  }

  /** role follows before. */
  ghost predicate Follows(before: Role, role: Role) {
    match role
    case Fill => false
    case Blur => before.Fill? || before.Between?
    case Sobel => before.Blur?
    case Between => before.Sobel?
    case Last => before.Sobel?
  }

  lemma RoleFollows(iterations: nat, g: nat)
    requires 0 < g <= 3 * iterations
    ensures Follows(RoleOf(iterations, g - 1), RoleOf(iterations, g))
  {
  }

  lemma BlurShown(n: nat, before: Role, m: Memory, c: nat, was: int)
    requires n > 0 && Shows(n, before, m) && c < RowAt(n, n) && (before.Fill? || before.Between?) && was == 0
    ensures ConvolvedFrom(n, 0, GAUSSIAN, c, m, was) == Blurred(n, Row(n, c), Col(n, c))
  {
    var i, j := Row(n, c), Col(n, c);
    if Inner(n, i, j) {
      hide Convolved;
      forall a: nat, b: nat | i - 1 <= a <= i + 1 && j - 1 <= b <= j + 1 ensures View(n, 0, m)(a, b) == Ramp(a, b) {
        AtInside(n, a, b);
        assert ShowsAt(n, before, m, At(n, a, b));
      }
      ConvolvedAlike(View(n, 0, m), Ramp, GAUSSIAN, i, j);
    }
  }

  lemma SobelShown(n: nat, m: Memory, kernel: Filter, i: nat, j: nat)
    requires n > 0 && Shows(n, Blur, m) && Inner(n, i, j)
    ensures Convolved(View(n, 2 * RowAt(n, n), m), kernel, i, j) == Convolved(BlurredImage(n), kernel, i, j)
  {
    hide Convolved, RowAt;
    var view := View(n, 2 * RowAt(n, n), m);
    forall a: nat, b: nat | i - 1 <= a <= i + 1 && j - 1 <= b <= j + 1 ensures view(a, b) == BlurredImage(n)(a, b) {
      AtInside(n, a, b);
      assert ShowsAt(n, Blur, m, At(n, a, b));
    }
    ConvolvedAlike(view, BlurredImage(n), kernel, i, j);
  }

  ghost predicate SegmentCell(n: nat, role: Role, m: Memory, m': Memory, c: nat)
    requires n > 0 && c < RowAt(n, n) && |m| == |m'| == 3 * RowAt(n, n)
  {
    var s, p := RowAt(n, n), Passes(role);
    && m'[c] == After(n, role, p, c, m) && m'[s + c] == After(n, role, p, s + c, m)
    && m'[2 * s + c] == After(n, role, p, 2 * s + c, m)
  }

  lemma SegmentShows(n: nat, before: Role, role: Role, m: Memory, m': Memory, c: nat)
    requires n > 0 && c < RowAt(n, n) && |m| == |m'| == 3 * RowAt(n, n) && SegmentCell(n, role, m, m', c)
    requires role.Fill? || (Follows(before, role) && Shows(n, before, m))
    ensures ShowsAt(n, role, m', c)
  {
    hide RowAt, Row, Col, View, Convolved, Edge, Thresholded;
    var i, j, s := Row(n, c), Col(n, c), RowAt(n, n);
    assert !role.Fill? ==> ShowsAt(n, before, m, c);
    match role
    case Fill =>
    case Blur => BlurShown(n, before, m, c, m[2 * s + c]);
    case Sobel =>
      if Inner(n, i, j) {
        SobelShown(n, m, VERTICAL_SOBEL, i, j);
        SobelShown(n, m, HORIZONTAL_SOBEL, i, j);
      }
    case Between =>
    case Last => EdgeIs(n, i, j);
  }

  lemma EdgeIs(n: nat, i: nat, j: nat)
    ensures Edge(n, i, j) == Thresholded(Vertical(n, i, j), Horizontal(n, i, j))
  {
  }

  lemma SegmentStarts(n: nat, rows: Rows, iterations: nat, m0: Memory, g: nat, c: nat)
    requires n > 0 && Partition(n, rows) && |m0| == 3 * RowAt(n, n) && c < RowAt(n, n)
    ensures var k := KernelOf(EdgeSweep(n, rows, iterations));
            && |Start(k, g, m0)| == |Start(k, g + 1, m0)| == 3 * RowAt(n, n)
            && SegmentCell(n, RoleOf(iterations, g), Start(k, g, m0), Start(k, g + 1, m0), c)
  {
    hide Proper, RowAt, Row, Col, ConvolvedFrom, Start, KernelOf, Passes;
    SweepProper(n, rows, iterations);
    StartStep(EdgeSweep(n, rows, iterations), g, m0);
  }

  /** Before segment g + 1 the buffers show what segment g is to make, for the whole image. */
  lemma {:induction false} StartShows(n: nat, rows: Rows, iterations: nat, m0: Memory, g: nat)
    requires n > 0 && Partition(n, rows) && |m0| == 3 * RowAt(n, n) && g <= 3 * iterations
    ensures Shows(n, RoleOf(iterations, g), Start(KernelOf(EdgeSweep(n, rows, iterations)), g + 1, m0))
  {
    hide RoleOf, SegmentCell, ShowsAt, Partition, Start, KernelOf, EdgeSweep, Row, Col;
    var k := KernelOf(EdgeSweep(n, rows, iterations));
    var role, m, m' := RoleOf(iterations, g), Start(k, g, m0), Start(k, g + 1, m0);
    if g > 0 {
      StartShows(n, rows, iterations, m0, g - 1);
      RoleFollows(iterations, g);
    } else {
      FirstRole(iterations);
    }
    RowMonotone(n, 0, n);
    SegmentStarts(n, rows, iterations, m0, g, 0);
    forall c: nat | c < RowAt(n, n) ensures ShowsAt(n, role, m', c) {
      SegmentStarts(n, rows, iterations, m0, g, c);
      SegmentShows(n, if g > 0 then RoleOf(iterations, g - 1) else Fill, role, m, m', c);
    }
  }

  lemma FirstRole(iterations: nat)
    ensures RoleOf(iterations, 0) == Fill
  {
  }

  /** Whatever the interleaving, the division of the rows and the memory's first contents, every run that
      ends leaves the edges of the whole image in buffer 3, and its two filtered images in the others. */
  lemma TiledIsWhole(n: nat, rows: Rows, iterations: nat, m0: Memory, run: seq<State>, i: nat, j: nat)
    requires n > 0 && Partition(n, rows) && |m0| == 3 * RowAt(n, n) && iterations > 0 && i < n && j < n
    requires Run(KernelOf(EdgeSweep(n, rows, iterations)), m0, run)
    requires Finished(KernelOf(EdgeSweep(n, rows, iterations)), run[|run| - 1])
    ensures var m, s, c := run[|run| - 1].mem, RowAt(n, n), At(n, i, j);
            && c < s && |m| == 3 * s
            && m[c] == Vertical(n, i, j) && m[s + c] == Horizontal(n, i, j) && m[2 * s + c] == Edge(n, i, j)
  {
    hide RowAt, Partition, KernelOf, EdgeSweep, Finished, Shows, Edge, Vertical, Horizontal;
    FinalShows(n, rows, iterations, m0, run);
    ShownLast(n, run[|run| - 1].mem, i, j);
  }

  lemma ShownLast(n: nat, m: Memory, i: nat, j: nat)
    requires i < n && j < n && Shows(n, Last, m)
    ensures var s, c := RowAt(n, n), At(n, i, j);
            && c < s && |m| == 3 * s
            && m[c] == Vertical(n, i, j) && m[s + c] == Horizontal(n, i, j) && m[2 * s + c] == Edge(n, i, j)
  {
    hide Edge, Vertical, Horizontal;
    AtInside(n, i, j);
    assert ShowsAt(n, Last, m, At(n, i, j));
  }

  lemma FinalShows(n: nat, rows: Rows, iterations: nat, m0: Memory, run: seq<State>)
    requires n > 0 && Partition(n, rows) && |m0| == 3 * RowAt(n, n) && iterations > 0
    requires Run(KernelOf(EdgeSweep(n, rows, iterations)), m0, run)
    requires Finished(KernelOf(EdgeSweep(n, rows, iterations)), run[|run| - 1])
    ensures Shows(n, Last, run[|run| - 1].mem)
  {
    hide Shows, Proper;
    var sw := EdgeSweep(n, rows, iterations);
    SweepProper(n, rows, iterations);
    KernelSound(sw, m0);
    FinalMemory(KernelOf(sw), m0, run);
    StartShows(n, rows, iterations, m0, 3 * iterations);
    assert RoleOf(iterations, 3 * iterations) == Last;
  }

  /** No run gets stuck on the way. */
  lemma EdgeDetectEnds(n: nat, rows: Rows, iterations: nat, m0: Memory, run: seq<State>) returns (s': State)
    requires n > 0 && Partition(n, rows) && |m0| == 3 * RowAt(n, n)
    requires Run(KernelOf(EdgeSweep(n, rows, iterations)), m0, run)
    requires !Finished(KernelOf(EdgeSweep(n, rows, iterations)), run[|run| - 1])
    ensures Next(KernelOf(EdgeSweep(n, rows, iterations)), run[|run| - 1], s')
  {
    SweepProper(n, rows, iterations);
    KernelSound(EdgeSweep(n, rows, iterations), m0);
    s' := NeverStuck(KernelOf(EdgeSweep(n, rows, iterations)), m0, run);
  }

  /** No pixel of an image with sides of n exceeds this. */
  function Range(n: nat): nat { if 2 * n > 255 then 2 * n else 255 }

  lemma ShownBounded(n: nat, role: Role, buffer: nat, i: nat, j: nat)
    requires i < n && j < n
    ensures Magnitude(Shown(n, role, buffer, i, j)) <= Range(n)
  {
    hide Vertical, Horizontal, Blurred;
    BlurredBounded(n, i, j);
    StagesBounded(n, i, j);
  }

  lemma ShowsBounded(n: nat, before: Role, m: Memory, a: nat)
    requires n > 0 && Shows(n, before, m) && a < |m|
    ensures Magnitude(m[a]) <= Range(n)
  {
    hide Shown, Range, RowAt, Row, Col;
    var c := CellOfThree(RowAt(n, n), a);
    assert ShowsAt(n, before, m, c);
    RowCol(n, c);
    RowBound(n, n, c);
    forall buffer: nat { ShownBounded(n, before, buffer, Row(n, c), Col(n, c)); }
  }

  /** Nor does any value on the way from one image to the next. */
  lemma AfterBounded(n: nat, before: Role, role: Role, p: nat, a: nat, m: Memory)
    requires n > 0 && |m| == 3 * RowAt(n, n) && a < |m|
    requires if role.Fill? then p > 0 else Follows(before, role) && Shows(n, before, m)
    ensures Magnitude(After(n, role, p, a, m)) <= Range(n)
  {
    var c := CellOfThree(RowAt(n, n), a);
    RowCol(n, c);
    RowBound(n, n, c);
    hide RowAt, Row, Col, View, Convolved, Blurred, Vertical, Horizontal, Shown, FilteredOr, Shows;
    if !role.Fill? { ShowsBounded(n, before, m, a); }
    BlurredBounded(n, Row(n, c), Col(n, c));
    if role.Blur? && Written(RowAt(n, n), role, a) {
      ZeroShown(n, before, m, c);
      BlurShown(n, before, m, c, m[a]);
    } else if role.Sobel? {
      SobelBounded(n, m, VERTICAL_SOBEL, c, m[a]);
      SobelBounded(n, m, HORIZONTAL_SOBEL, c, m[a]);
    }
  }

  lemma ZeroShown(n: nat, before: Role, m: Memory, c: nat)
    requires n > 0 && c < RowAt(n, n) && Shows(n, before, m) && (before.Fill? || before.Between?)
    ensures m[2 * RowAt(n, n) + c] == 0
  {
    assert ShowsAt(n, before, m, c);
  }

  lemma SobelBounded(n: nat, m: Memory, kernel: Filter, c: nat, was: int)
    requires n > 0 && Shows(n, Blur, m) && c < RowAt(n, n) && Magnitude(was) <= Range(n)
    ensures Magnitude(ConvolvedFrom(n, 2 * RowAt(n, n), kernel, c, m, was)) <= Range(n)
  {
    hide RowAt, Row, Col, Convolved, Blurred, Shows;
    var i, j := Row(n, c), Col(n, c);
    if Inner(n, i, j) {
      SobelShown(n, m, kernel, i, j);
      forall a: nat, b: nat | i - 1 <= a <= i + 1 && j - 1 <= b <= j + 1
        ensures Bounded(BlurredImage(n), a, b, 2 * n)
      {
        BlurredBounded(n, a, b);
      }
      ConvolutionBounded(BlurredImage(n), kernel, i, j, 2 * n);
    }
  }

  lemma StateBounded(n: nat, rows: Rows, iterations: nat, m0: Memory, s: State, g: nat, a: nat)
    requires n > 0 && Partition(n, rows) && |m0| == 3 * RowAt(n, n) && a < |m0|
    requires Phases.Inv(KernelOf(EdgeSweep(n, rows, iterations)), m0, s, g)
    ensures |s.mem| == |m0| && (Magnitude(s.mem[a]) <= Range(n) || (g == 0 && s.mem[a] == m0[a]))
  {
    hide Proper, Shows, Shown, RowAt, Convolved, Range;
    var sw := EdgeSweep(n, rows, iterations);
    SweepProper(n, rows, iterations);
    var p := ValueIn(sw, m0, s, g, a);
    var role, m := RoleOf(iterations, g), Start(KernelOf(sw), g, m0);
    if g > 0 {
      StartShows(n, rows, iterations, m0, g - 1);
      RoleFollows(iterations, g);
      AfterBounded(n, RoleOf(iterations, g - 1), role, p, a, m);
    } else {
      FirstStart(KernelOf(sw), m0);
      if p > 0 { AfterBounded(n, Fill, role, p, a, m); }
    }
  }

  /** In every state of every run each value is the memory's first one or within the images' range. */
  lemma ValuesStayInRange(n: nat, rows: Rows, iterations: nat, m0: Memory, run: seq<State>, x: nat, a: nat)
    requires n > 0 && Partition(n, rows) && |m0| == 3 * RowAt(n, n) && x < |run| && a < |m0|
    requires Run(KernelOf(EdgeSweep(n, rows, iterations)), m0, run)
    ensures |run[x].mem| == |m0| && (run[x].mem[a] == m0[a] || Magnitude(run[x].mem[a]) <= Range(n))
  {
    var sw := EdgeSweep(n, rows, iterations);
    SweepProper(n, rows, iterations);
    KernelSound(sw, m0);
    var g := Determined(KernelOf(sw), m0, run, x);
    StateBounded(n, rows, iterations, m0, run[x], g, a);
  }

  /** Once a thread has passed its first barrier, every running sum of every convolution of every buffer is
      bounded by the kernel's weight; the kernels here weigh at most 16, so for n up to 2^24 the sums before
      normalization are within a C int. */
  lemma RunningSumsFit(n: nat, rows: Rows, iterations: nat, m0: Memory, run: seq<State>, x: nat, t: nat,
                       kernel: Filter, base: nat, i: nat, j: nat, k: nat)
    requires n > 0 && Partition(n, rows) && |m0| == 3 * RowAt(n, n) && x < |run| && t < |rows|
    requires Run(KernelOf(EdgeSweep(n, rows, iterations)), m0, run) && run[x].bar.pos[t] > 0
    requires base + RowAt(n, n) <= |m0| && Inner(n, i, j) && k <= 9
    ensures var sum := Products(View(n, base, run[x].mem), kernel, i - 1, j - 1, k);
            && Magnitude(sum) <= Range(n) * Magnitudes(kernel, k)
            && (n <= 0x100_0000 && kernel in {GAUSSIAN, VERTICAL_SOBEL, HORIZONTAL_SOBEL} ==> Int32(sum))
  {
    var sw := EdgeSweep(n, rows, iterations);
    SweepProper(n, rows, iterations);
    KernelSound(sw, m0);
    var g := Determined(KernelOf(sw), m0, run, x);
    var view := View(n, base, run[x].mem);
    forall a: nat, b: nat | i - 1 <= a <= i + 1 && j - 1 <= b <= j + 1 ensures Bounded(view, a, b, Range(n)) {
      AtInside(n, a, b);
      StateBounded(n, rows, iterations, m0, run[x], g, base + At(n, a, b));
    }
    ProductsBound(view, kernel, i, j, k, Range(n));
    SumFits(n, kernel, k, Products(view, kernel, i - 1, j - 1, k));
  }

  lemma SumFits(n: nat, kernel: Filter, k: nat, sum: int)
    requires k <= 9 && Magnitude(sum) <= Range(n) * Magnitudes(kernel, k)
    ensures n <= 0x100_0000 && kernel in {GAUSSIAN, VERTICAL_SOBEL, HORIZONTAL_SOBEL} ==> Int32(sum)
  {
    hide Magnitudes;
    if n <= 0x100_0000 && kernel in {GAUSSIAN, VERTICAL_SOBEL, HORIZONTAL_SOBEL} {
      FilterWeights();
      MagnitudesGrow(kernel, k, 9);
      ProductBound(Range(n), Magnitudes(kernel, k), 0x200_0000, 16);
    }
  }
}
