/** One thread of the histogram kernel between its barrier calls, one loop iteration at a time, given that
    what it reads of the others is complete. */
module HistogramStages {
  import opened Grid
  import opened Histogram

  /** What a thread works on: its rows of the image, its histogram, and its processor's sums and mapping. */
  datatype Local = Local(tile: seq<int>, histo: seq<int>, sums: seq<int>, cdf: real, map_: seq<int>)

  /** A stage and the loop iterations done in it. */
  datatype Stage = Start | Computing(n: nat) | Computed | Mapping(n: nat) | Painting(n: nat)

  datatype Image = Image(side: nat, rows: Rows)

  ghost predicate WellDivided(im: Image) {
    im.side > 0 && Partition(im.side, im.rows) && RowAt(im.side, im.side) > 0
  }

  function First(im: Image, t: nat): nat
    requires t < |im.rows|
  {
    RowAt(im.side, im.rows[t].0)
  }

  function Cells(im: Image, t: nat): nat
    requires t < |im.rows|
  {
    OwnCells(im.side, im.rows, t)
  }

  function ComputeOps(im: Image, t: nat): nat
    requires t < |im.rows|
  {
    LEVELS + 2 * Cells(im, t)
  }

  function SumOps(im: Image): nat { |im.rows| * LEVELS }

  function MapOps(im: Image): nat { SumOps(im) + LEVELS }

  function Set(s: seq<int>, i: int, v: int): seq<int> { if 0 <= i < |s| then s[i := v] else s }

  function Get(s: seq<int>, i: int): int { if 0 <= i < |s| then s[i] else 0 }

  /** Iteration n of compute_histo's three loops. */
  function ComputeStep(im: Image, t: nat, n: nat, x: Local): Local
    requires im.side > 0 && t < |im.rows|
  {
    var cells := Cells(im, t);
    if n < LEVELS then x.(histo := Set(x.histo, n, 0))
    else if n < LEVELS + cells then x.(tile := Set(x.tile, n - LEVELS, Gray(im.side, First(im, t) + (n - LEVELS))))
    else
      var pix := Get(x.tile, n - LEVELS - cells);
      x.(histo := Set(x.histo, pix, Get(x.histo, pix) + 1))
  }

  /** Iteration n of the summing loops of compute_gray_level_mapping, which reads `read` there. */
  function SumStep(n: nat, read: int, x: Local): Local {
    x.(sums := Set(x.sums, n % LEVELS, if n < LEVELS then read else Get(x.sums, n % LEVELS) + read))
  }

  /** Iteration v of its last loop. */
  function LevelStep(im: Image, v: nat, x: Local): Local {
    var pixels, count := RowAt(im.side, im.side), Get(x.sums, v);
    if pixels == 0 || count < 0 then x else
      var cdf := (if v == 0 then 0.0 else x.cdf) + Fraction(pixels, count);
      x.(cdf := cdf, map_ := Set(x.map_, v, Level(cdf)))
  }

  /** Iteration n of compute_gray_level_mapping. */
  function MapStep(im: Image, n: nat, read: int, x: Local): Local {
    if n < SumOps(im) then SumStep(n, read, x) else LevelStep(im, n - SumOps(im), x)
  }

  /** Iteration n of compute_image with the given mapping. */
  function PaintStep(n: nat, mapping: seq<int>, x: Local): Local {
    x.(tile := Set(x.tile, n, Get(mapping, Get(x.tile, n))))
  }

  ghost predicate Sized(im: Image, t: nat, x: Local)
    requires t < |im.rows|
  {
    |x.tile| == Cells(im, t) && |x.histo| == |x.sums| == |x.map_| == 256
  }

  ghost predicate Gray0(im: Image, t: nat, k: nat, x: Local)
    requires im.side > 0 && t < |im.rows|
  {
    forall c: nat | c < k && c < |x.tile| :: x.tile[c] == Gray(im.side, First(im, t) + c)
  }

  ghost predicate Counted(im: Image, t: nat, k: nat, x: Local)
    requires im.side > 0 && t < |im.rows|
  {
    forall v: nat | v < LEVELS && v < |x.histo| ::
      x.histo[v] == CountIn(Grays(im.side), First(im, t), First(im, t) + k, v)
  }

  ghost predicate HistoDone(im: Image, t: nat, x: Local)
    requires im.side > 0 && t < |im.rows|
  {
    |x.histo| == LEVELS && forall v: nat | v < LEVELS :: x.histo[v] == Share(im.side, im.rows, t, v)
  }

  ghost predicate Summed(im: Image, j: nat, k: nat, x: Local)
    requires im.side > 0
  {
    forall v: nat | v < LEVELS && v < |x.sums| ::
      && (v < k && j < |im.rows| ==> x.sums[v] == FirstShares(im.side, im.rows, v, j + 1))
      && (v >= k && 0 < j <= |im.rows| ==> x.sums[v] == FirstShares(im.side, im.rows, v, j))
  }

  ghost predicate MappedTo(im: Image, k: nat, x: Local)
    requires im.side > 0 && RowAt(im.side, im.side) > 0
  {
    forall v: nat | v < k && v < |x.map_| :: x.map_[v] == MapTo(im.side, v)
  }

  ghost predicate IsMap(im: Image, mapping: seq<int>)
    requires im.side > 0 && RowAt(im.side, im.side) > 0
  {
    |mapping| == LEVELS && forall v: nat | v < LEVELS :: mapping[v] == MapTo(im.side, v)
  }

  ghost predicate Painted(im: Image, t: nat, k: nat, x: Local)
    requires im.side > 0 && RowAt(im.side, im.side) > 0 && t < |im.rows|
  {
    forall c: nat | c < |x.tile| ::
      var v := Gray(im.side, First(im, t) + c);
      x.tile[c] == if c < k then MapTo(im.side, v) else v
  }

  /** What thread t's data hold in a stage; thread 1 uses thread 0's mapping and has none of its own. */
  ghost predicate Good(im: Image, t: nat, stage: Stage, x: Local)
    requires WellDivided(im) && t < |im.rows|
  {
    Sized(im, t, x)
    && match stage
       case Start => true
       case Computing(n) => ComputeGood(im, t, n, x)
       case Computed => HistoDone(im, t, x) && Gray0(im, t, Cells(im, t), x)
       case Mapping(n) => HistoDone(im, t, x) && Gray0(im, t, Cells(im, t), x) && MapGood(im, n, x)
       case Painting(n) => HistoDone(im, t, x) && Painted(im, t, n, x) && (t != 1 ==> MappedTo(im, LEVELS, x))
  }

  ghost predicate ComputeGood(im: Image, t: nat, n: nat, x: Local)
    requires im.side > 0 && t < |im.rows|
  {
    if n < LEVELS then forall v: nat | v < n && v < |x.histo| :: x.histo[v] == 0
    else if n < LEVELS + Cells(im, t) then Gray0(im, t, n - LEVELS, x) && Counted(im, t, 0, x)
    else Gray0(im, t, Cells(im, t), x) && Counted(im, t, n - LEVELS - Cells(im, t), x)
  }

  ghost predicate MapGood(im: Image, n: nat, x: Local)
    requires im.side > 0 && RowAt(im.side, im.side) > 0
  {
    if n < SumOps(im) then Summed(im, n / LEVELS, n % LEVELS, x)
    else
      var v := n - SumOps(im);
      && Summed(im, |im.rows|, 0, x) && MappedTo(im, v, x)
      && (v > 0 ==> x.cdf == Fraction(RowAt(im.side, im.side), UpTo(im.side, v - 1)))
  }

  lemma ZeroStepGood(im: Image, t: nat, n: nat, x: Local)
    requires WellDivided(im) && t < |im.rows| && n < LEVELS && Good(im, t, Computing(n), x)
    ensures Good(im, t, Computing(n + 1), ComputeStep(im, t, n, x))
  {
  }

  lemma FillStepGood(im: Image, t: nat, n: nat, x: Local)
    requires WellDivided(im) && t < |im.rows| && LEVELS <= n < LEVELS + Cells(im, t) && Good(im, t, Computing(n), x)
    ensures Good(im, t, Computing(n + 1), ComputeStep(im, t, n, x))
  {
  }

  lemma CountStepGood(im: Image, t: nat, c: nat, x: Local)
    requires WellDivided(im) && t < |im.rows| && c < Cells(im, t)
    requires Good(im, t, Computing(LEVELS + Cells(im, t) + c), x)
    ensures Good(im, t, Computing(LEVELS + Cells(im, t) + c + 1), ComputeStep(im, t, LEVELS + Cells(im, t) + c, x))
  {
    assert x.tile[c] == Gray(im.side, First(im, t) + c);
  }

  lemma ComputeStepGood(im: Image, t: nat, n: nat, x: Local)
    requires WellDivided(im) && t < |im.rows| && n < ComputeOps(im, t) && Good(im, t, Computing(n), x)
    ensures Good(im, t, Computing(n + 1), ComputeStep(im, t, n, x))
  {
    if n < LEVELS {
      ZeroStepGood(im, t, n, x);
    } else if n < LEVELS + Cells(im, t) {
      FillStepGood(im, t, n, x);
    } else {
      CountStepGood(im, t, n - LEVELS - Cells(im, t), x);
    }
  }

  lemma ComputeEnds(im: Image, t: nat, x: Local)
    requires WellDivided(im) && t < |im.rows| && Good(im, t, Computing(ComputeOps(im, t)), x)
    ensures Good(im, t, Computed, x)
  {
    RowMonotone(im.side, im.rows[t].0, im.rows[t].1);
  }

  lemma SumIndex(n: nat)
    ensures n % LEVELS < LEVELS - 1 ==> (n + 1) / LEVELS == n / LEVELS && (n + 1) % LEVELS == n % LEVELS + 1
    ensures n % LEVELS == LEVELS - 1 ==> (n + 1) / LEVELS == n / LEVELS + 1 && (n + 1) % LEVELS == 0
  {
  }

  lemma SumStepGood(im: Image, t: nat, n: nat, x: Local)
    requires WellDivided(im) && t < |im.rows| && n < SumOps(im) && Good(im, t, Mapping(n), x)
    ensures n / LEVELS < |im.rows|
    ensures Good(im, t, Mapping(n + 1), SumStep(n, Share(im.side, im.rows, n / LEVELS, n % LEVELS), x))
  {
    SumIndex(n);
    NextShare(im.side, im.rows, n % LEVELS, n / LEVELS);
  }

  lemma LevelStepGood(im: Image, t: nat, v: nat, x: Local)
    requires WellDivided(im) && t < |im.rows| && v < LEVELS && Good(im, t, Mapping(SumOps(im) + v), x)
    ensures Good(im, t, Mapping(SumOps(im) + v + 1), LevelStep(im, v, x))
  {
    AllShares(im.side, im.rows, v);
    NextFraction(im.side, v, x.cdf);
  }

  lemma MapEnds(im: Image, t: nat, x: Local)
    requires WellDivided(im) && t < |im.rows| && Good(im, t, Mapping(MapOps(im)), x)
    ensures Good(im, t, Painting(0), x)
  {
  }

  lemma MapStepGood(im: Image, t: nat, n: nat, read: int, x: Local)
    requires WellDivided(im) && t < |im.rows| && n < MapOps(im) && Good(im, t, Mapping(n), x)
    requires n < SumOps(im) ==> n / LEVELS < |im.rows| && read == Share(im.side, im.rows, n / LEVELS, n % LEVELS)
    ensures Good(im, t, Mapping(n + 1), MapStep(im, n, read, x))
  {
    if n < SumOps(im) { SumStepGood(im, t, n, x); } else { LevelStepGood(im, t, n - SumOps(im), x); }
  }

  lemma MapAdvances(im: Image, t: nat, n: nat, read: int, x: Local, b: Stage)
    requires WellDivided(im) && t < |im.rows| && n < MapOps(im) && Good(im, t, Mapping(n), x)
    requires n < SumOps(im) ==> n / LEVELS < |im.rows| && read == Share(im.side, im.rows, n / LEVELS, n % LEVELS)
    requires b == Mapping(n + 1) || (n + 1 == MapOps(im) && b == Painting(0))
    ensures Good(im, t, b, MapStep(im, n, read, x))
  {
    MapStepGood(im, t, n, read, x);
    if b == Painting(0) { MapEnds(im, t, MapStep(im, n, read, x)); }
  }

  lemma PaintStepGood(im: Image, t: nat, n: nat, mapping: seq<int>, x: Local)
    requires WellDivided(im) && t < |im.rows| && n < Cells(im, t) && Good(im, t, Painting(n), x)
    requires IsMap(im, mapping)
    ensures Good(im, t, Painting(n + 1), PaintStep(n, mapping, x))
  {
  }
}
