/** Histogram equalization of an n by n image whose rows are divided among threads: what each of the
    kernel's functions computes, and that the threads' histograms add up to the image's. */
module Histogram {
  import opened Wrappers
  import opened Grid

  const LEVELS: nat := 256

  /** The starting gray level of cell c. */
  function Gray(n: nat, c: nat): (v: nat)
    requires n > 0
    ensures v < 255
  {
    (Row(n, c) * Col(n, c)) % 255
  }

  function Grays(n: nat): nat -> nat
    requires n > 0
  {
    (c: nat) => Gray(n, c)
  }

  /** Cells lo..hi with level v. */
  ghost function CountIn(level: nat -> nat, lo: nat, hi: nat, v: nat): nat
    decreases hi
  {
    if hi <= lo then 0 else CountIn(level, lo, hi - 1, v) + if level(hi - 1) == v then 1 else 0
  }

  lemma {:induction false} CountSplit(level: nat -> nat, lo: nat, mid: nat, hi: nat, v: nat)
    requires lo <= mid <= hi
    ensures CountIn(level, lo, hi, v) == CountIn(level, lo, mid, v) + CountIn(level, mid, hi, v)
  {
    if mid < hi { CountSplit(level, lo, mid, hi - 1, v); }
  }

  ghost function InRow(level: nat -> nat, n: nat, v: nat, i: nat): nat {
    CountIn(level, RowAt(n, i), RowAt(n, i + 1), v)
  }

  ghost function RowCounts(level: nat -> nat, n: nat, v: nat): nat -> nat {
    (i: nat) => InRow(level, n, v, i)
  }

  lemma {:induction false} CountByRows(level: nat -> nat, n: nat, lo: nat, hi: nat, v: nat)
    requires lo <= hi
    ensures CountIn(level, RowAt(n, lo), RowAt(n, hi), v) == RangeSum(RowCounts(level, n, v), lo, hi)
  {
    if lo < hi {
      CountByRows(level, n, lo, hi - 1, v);
      RowMonotone(n, lo, hi - 1);
      CountSplit(level, RowAt(n, lo), RowAt(n, hi - 1), RowAt(n, hi), v);
    }
  }

  /** The histogram of thread t's rows. */
  ghost function Share(n: nat, rows: Rows, t: nat, v: nat): nat
    requires n > 0 && t < |rows|
  {
    CountIn(Grays(n), RowAt(n, rows[t].0), RowAt(n, rows[t].1), v)
  }

  ghost function Shares(n: nat, rows: Rows, v: nat): seq<nat>
    requires n > 0
  {
    seq(|rows|, t requires 0 <= t < |rows| => Share(n, rows, t, v))
  }

  /** The image's histogram. */
  ghost function Whole(n: nat, v: nat): nat
    requires n > 0
  {
    CountIn(Grays(n), 0, RowAt(n, n), v)
  }

  /** The threads' histograms add up to the histogram of the whole image. */
  lemma SharesMakeWhole(n: nat, rows: Rows, v: nat)
    requires n > 0 && Partition(n, rows)
    ensures Sum(Shares(n, rows, v)) == Whole(n, v)
  {
    var f := RowCounts(Grays(n), n, v);
    PartsMakeWhole(n, rows, f);
    forall t: nat | t < |rows| ensures Shares(n, rows, v)[t] == Parts(rows, f)[t] {
      CountByRows(Grays(n), n, rows[t].0, rows[t].1, v);
    }
    assert Shares(n, rows, v) == Parts(rows, f);
    CountByRows(Grays(n), n, 0, n, v);
  }

  /** Cells of level v or less: the running total of the image's histogram. */
  ghost function UpTo(n: nat, v: int): nat
    requires n > 0
  {
    if v < 0 then 0 else UpTo(n, v - 1) + Whole(n, v)
  }

  ghost function Dim(n: nat, h: nat, v: int): nat
    requires n > 0
  {
    if h == 0 then 0 else Dim(n, h - 1, v) + if Gray(n, h - 1) <= v then 1 else 0
  }

  lemma {:induction false} DimSplits(n: nat, h: nat, v: nat)
    requires n > 0
    ensures Dim(n, h, v) == Dim(n, h, v - 1) + CountIn(Grays(n), 0, h, v)
  {
    if h > 0 { DimSplits(n, h - 1, v); }
  }

  lemma {:induction false} DimEnds(n: nat, h: nat)
    requires n > 0
    ensures Dim(n, h, -1) == 0 && forall v: nat | v >= 254 :: Dim(n, h, v) == h
  {
    if h > 0 { DimEnds(n, h - 1); }
  }

  lemma {:induction false} UpToIsDim(n: nat, v: int)
    requires n > 0 && v >= -1
    ensures UpTo(n, v) == Dim(n, RowAt(n, n), v)
    decreases v + 1
  {
    if v < 0 {
      DimEnds(n, RowAt(n, n));
    } else {
      UpToIsDim(n, v - 1);
      DimSplits(n, RowAt(n, n), v);
    }
  }

  /** The share of the image the counts make up, as the kernel's float arithmetic has it: each term and
      each partial sum is a multiple of 1 / 2^24 up to 1 for the 4096 by 4096 image, so it is exact. */
  function Fraction(pixels: nat, count: nat): real
    requires pixels > 0
  {
    count as real / pixels as real
  }

  lemma FractionAdds(pixels: nat, a: nat, b: nat)
    requires pixels > 0
    ensures Fraction(pixels, a) + Fraction(pixels, b) == Fraction(pixels, a + b)
  {
  }

  lemma NextFraction(n: nat, v: nat, cdf: real)
    requires n > 0 && RowAt(n, n) > 0 && (v > 0 ==> cdf == Fraction(RowAt(n, n), UpTo(n, v - 1)))
    ensures (if v == 0 then 0.0 else cdf) + Fraction(RowAt(n, n), Whole(n, v)) == Fraction(RowAt(n, n), UpTo(n, v))
  {
    if v > 0 { FractionAdds(RowAt(n, n), UpTo(n, v - 1), Whole(n, v)); }
  }

  lemma FractionMonotone(pixels: nat, a: nat, b: nat)
    requires pixels > 0 && a <= b <= pixels
    ensures 0.0 <= Fraction(pixels, a) <= Fraction(pixels, b) <= 1.0
    ensures Fraction(pixels, pixels) == 1.0
  {
    var p, x, y := pixels as real, Fraction(pixels, a), Fraction(pixels, b);
    assert x * p == a as real && y * p == b as real;
  }

  function Level(cdf: real): int { (255.0 * cdf).Floor }

  lemma SomePixels(n: nat)
    requires n > 0
    ensures RowAt(n, n) > 0
  {
    RowMonotone(n, 1, n);
  }

  /** The new gray level of v. */
  ghost function MapTo(n: nat, v: nat): int
    requires n > 0
  {
    SomePixels(n);
    Level(Fraction(RowAt(n, n), UpTo(n, v)))
  }

  lemma Scaled(f: real, p: real, c: real, q: real, r: real)
    requires p > 0.0 && f * p == c && 255.0 * c == q * p + r && 0.0 <= r < p
    ensures q <= 255.0 * f < q + 1.0
  {
    Between(255.0 * f - q, p, r);
  }

  lemma Between(d: real, p: real, r: real)
    requires p > 0.0 && d * p == r && 0.0 <= r < p
    ensures 0.0 <= d < 1.0
  {
  }

  lemma FloorIs(x: real, q: int)
    requires q as real <= x < q as real + 1.0
    ensures x.Floor == q
  {
  }

  lemma FractionTimes(pixels: nat, count: nat)
    requires pixels > 0
    ensures Fraction(pixels, count) * pixels as real == count as real
  {
  }

  lemma QuotientReal(pixels: nat, count: nat, q: int, r: int)
    requires pixels > 0 && 255 * count == q * pixels + r
    ensures 255.0 * count as real == q as real * pixels as real + r as real
  {
  }

  /** Scaling a share of the image and rounding down is the integer quotient. */
  lemma LevelIsQuotient(pixels: nat, count: nat)
    requires pixels > 0
    ensures Level(Fraction(pixels, count)) == 255 * count / pixels
  {
    hide Fraction;
    var q, r := 255 * count / pixels, 255 * count % pixels;
    FractionTimes(pixels, count);
    QuotientReal(pixels, count, q, r);
    Scaled(Fraction(pixels, count), pixels as real, count as real, q as real, r as real);
    FloorIs(255.0 * Fraction(pixels, count), q);
  }

  /** The cells c of the first h with a level of at most v; the level is the product of row and column. */
  function Dims(n: nat, h: nat, v: int): set<nat>
    requires n > 0
  {
    set c: nat | c < h && (c / n) * (c % n) % 255 <= v
  }

  lemma GrayIsProduct(n: nat, c: nat)
    requires n > 0
    ensures Gray(n, c) == (c / n) * (c % n) % 255
  {
    RowIsQuotient(n, c);
  }

  lemma {:induction false} DimCounts(n: nat, h: nat, v: int)
    requires n > 0
    ensures Dim(n, h, v) == |Dims(n, h, v)|
  {
    if h == 0 {
      assert Dims(n, h, v) == {};
    } else {
      DimCounts(n, h - 1, v);
      GrayIsProduct(n, h - 1);
      var last: set<nat> := if Gray(n, h - 1) <= v then {h - 1} else {};
      assert Dims(n, h, v) == Dims(n, h - 1, v) + last;
    }
  }

  /** The new level of v: of 255, the share that the pixels of level v or less have in the image. */
  lemma MapIsShare(n: nat, v: nat)
    requires n > 0
    ensures MapTo(n, v) == 255 * |set c: nat | c < n * n && (c / n) * (c % n) % 255 <= v| / (n * n)
  {
    AtIsProduct(n, n, 0);
    UpToIsDim(n, v);
    DimCounts(n, n * n, v);
    assert Dims(n, n * n, v) == set c: nat | c < n * n && (c / n) * (c % n) % 255 <= v;
    LevelIsQuotient(n * n, UpTo(n, v));
  }

  lemma {:induction false} UpToMonotone(n: nat, v: nat, w: nat)
    requires n > 0 && v <= w
    ensures UpTo(n, v) <= UpTo(n, w)
  {
    if v < w { UpToMonotone(n, v, w - 1); }
  }

  /** The mapping is non-decreasing, within 0..255, and takes the brightest level to 255. */
  lemma MapIsEqualizing(n: nat, v: nat, w: nat)
    requires n > 0 && v <= w < 256
    ensures 0 <= MapTo(n, v) <= MapTo(n, w) <= 255
    ensures MapTo(n, 255) == 255
  {
    var pixels := RowAt(n, n);
    DimEnds(n, pixels);
    UpToIsDim(n, LEVELS - 1);
    UpToMonotone(n, v, w);
    UpToMonotone(n, w, LEVELS - 1);
    FractionMonotone(pixels, UpTo(n, v), UpTo(n, w));
    FractionMonotone(pixels, UpTo(n, w), pixels);
  }

  ghost predicate Tally(n: nat, lo: nat, hi: nat, h: seq<int>)
    requires n > 0
  {
    |h| == 256 && forall v: nat | v < 256 :: h[v] == CountIn(Grays(n), lo, hi, v)
  }

  lemma TallyNext(n: nat, lo: nat, c: nat, h: seq<int>)
    requires n > 0 && lo <= c && Tally(n, lo, c, h)
    ensures Tally(n, lo, c + 1, h[Gray(n, c) := h[Gray(n, c)] + 1])
  {
  }

  /** compute_histo: fill the thread's rows and count their levels. */
  method ComputeHisto(image: array<int>, histo: array<int>, n: nat, imgStartIndx: nat, imgEndIndx: nat)
    requires n > 0 && imgStartIndx <= imgEndIndx <= n && image.Length == RowAt(n, n)
    requires histo.Length == 256 && histo != image
    modifies image, histo
    ensures image[..] == Filled(n, RowAt(n, imgStartIndx), RowAt(n, imgEndIndx), old(image[..]))
    ensures Tally(n, RowAt(n, imgStartIndx), RowAt(n, imgEndIndx), histo[..])
  {
    for v := 0 to LEVELS
      invariant forall k: nat | k < v :: histo[k] == 0
      invariant image[..] == old(image[..])
    {
      histo[v] := 0;
    }
    FillImage(image, n, imgStartIndx, imgEndIndx);
    CountImage(image, histo, n, imgStartIndx, imgEndIndx);
  }

  /** Its innermost counting loop. */
  method CountRow(image: array<int>, histo: array<int>, n: nat, i: nat, ghost lo: nat)
    requires n > 0 && lo <= RowAt(n, i) && At(n, i, n) <= image.Length
    requires histo.Length == 256 && histo != image && Tally(n, lo, RowAt(n, i), histo[..])
    requires forall c: nat | RowAt(n, i) <= c < At(n, i, n) :: image[c] == Gray(n, c)
    modifies histo
    ensures Tally(n, lo, At(n, i, n), histo[..])
  {
    for j := 0 to n
      invariant Tally(n, lo, At(n, i, j), histo[..])
    {
      TallyNext(n, lo, At(n, i, j), histo[..]);
      var pix := image[At(n, i, j)];
      histo[pix] := histo[pix] + 1;
    }
  }

  /** Its last loop nest. */
  method CountImage(image: array<int>, histo: array<int>, n: nat, imgStartIndx: nat, imgEndIndx: nat)
    requires n > 0 && imgStartIndx <= imgEndIndx <= n && image.Length == RowAt(n, n)
    requires histo.Length == 256 && histo != image && forall v: nat | v < 256 :: histo[v] == 0
    requires forall c: nat | RowAt(n, imgStartIndx) <= c < RowAt(n, imgEndIndx) && c < image.Length ::
               image[c] == Gray(n, c)
    modifies histo
    ensures Tally(n, RowAt(n, imgStartIndx), RowAt(n, imgEndIndx), histo[..])
  {
    ghost var lo := RowAt(n, imgStartIndx);
    for i := imgStartIndx to imgEndIndx
      invariant lo <= RowAt(n, i) && Tally(n, lo, RowAt(n, i), histo[..])
    {
      RowMonotone(n, i + 1, imgEndIndx);
      RowMonotone(n, imgEndIndx, n);
      CountRow(image, histo, n, i, lo);
    }
  }

  ghost function Filled(n: nat, lo: nat, hi: nat, m: seq<int>): seq<int>
    requires n > 0
  {
    seq(|m|, c requires 0 <= c < |m| => if lo <= c < hi then Gray(n, c) else m[c])
  }

  /** Its first one. */
  method FillImage(image: array<int>, n: nat, imgStartIndx: nat, imgEndIndx: nat)
    requires n > 0 && imgStartIndx <= imgEndIndx <= n && image.Length == RowAt(n, n)
    modifies image
    ensures image[..] == Filled(n, RowAt(n, imgStartIndx), RowAt(n, imgEndIndx), old(image[..]))
  {
    ghost var lo, m := RowAt(n, imgStartIndx), image[..];
    for i := imgStartIndx to imgEndIndx
      invariant lo <= RowAt(n, i) && image[..] == Filled(n, lo, RowAt(n, i), m)
    {
      RowMonotone(n, i, n);
      for j := 0 to n
        invariant image[..] == Filled(n, lo, At(n, i, j), m)
      {
        AtCell(n, i, j);
        image[At(n, i, j)] := (i * j) % 255;
      }
    }
  }

  /** compute_image: map the thread's rows to their new levels. */
  method ComputeImage(image: array<int>, grayLevelMapping: array<int>, n: nat, imgStartIndx: nat, imgEndIndx: nat)
    requires n > 0 && imgStartIndx <= imgEndIndx <= n && image.Length == RowAt(n, n)
    requires grayLevelMapping.Length == 256 && grayLevelMapping != image
    requires forall c | RowAt(n, imgStartIndx) <= c < RowAt(n, imgEndIndx) && c < image.Length :: 0 <= image[c] < 256
    modifies image
    ensures forall c: nat | c < image.Length ::
              image[c] == if RowAt(n, imgStartIndx) <= c < RowAt(n, imgEndIndx) then grayLevelMapping[old(image[c])]
                          else old(image[c])
  {
    ghost var lo, m := RowAt(n, imgStartIndx), image[..];
    for i := imgStartIndx to imgEndIndx
      invariant lo <= RowAt(n, i) && PaintedTo(image[..], m, grayLevelMapping[..], lo, RowAt(n, i))
    {
      RowMonotone(n, i, imgEndIndx);
      RowMonotone(n, i + 1, imgEndIndx);
      RowMonotone(n, imgEndIndx, n);
      for j := 0 to n
        invariant PaintedTo(image[..], m, grayLevelMapping[..], lo, At(n, i, j))
      {
        image[At(n, i, j)] := grayLevelMapping[image[At(n, i, j)]];
      }
    }
  }

  ghost predicate PaintedTo(image: seq<int>, m: seq<int>, mapping: seq<int>, lo: nat, hi: nat) {
    && |image| == |m|
    && forall c: nat | c < |m| ::
         if lo <= c < hi then 0 <= m[c] < |mapping| && image[c] == mapping[m[c]] else image[c] == m[c]
  }

  /** Level v summed over the first k threads' histograms. */
  ghost function FirstShares(n: nat, rows: Rows, v: nat, k: nat): nat
    requires n > 0 && k <= |rows|
  {
    Sum(Shares(n, rows, v)[..k])
  }

  lemma NextShare(n: nat, rows: Rows, v: nat, k: nat)
    requires n > 0 && k < |rows|
    ensures FirstShares(n, rows, v, k + 1) == FirstShares(n, rows, v, k) + Share(n, rows, k, v)
    ensures FirstShares(n, rows, v, 0) == 0
  {
    var shares := Shares(n, rows, v);
    assert shares[..k + 1][..k] == shares[..k];
  }

  lemma AllShares(n: nat, rows: Rows, v: nat)
    requires n > 0 && Partition(n, rows)
    ensures FirstShares(n, rows, v, |rows|) == Whole(n, v)
  {
    SharesMakeWhole(n, rows, v);
    assert Shares(n, rows, v)[..|rows|] == Shares(n, rows, v);
  }

  /** compute_gray_level_mapping, given the threads' completed histograms. */
  method ComputeGrayLevelMapping(histo: seq<array<int>>, sums: array<int>, grayLevelMapping: array<int>, n: nat,
                                 ghost rows: Rows)
    requires n > 0 && Partition(n, rows) && |histo| == |rows|
    requires sums.Length == 256 && grayLevelMapping.Length == 256 && sums != grayLevelMapping
    requires forall t | 0 <= t < |histo| ::
               histo[t].Length == 256 && histo[t] != sums && histo[t] != grayLevelMapping
    requires forall t: nat, v: nat | t < |histo| && v < 256 :: histo[t][v] == Share(n, rows, t, v)
    modifies sums, grayLevelMapping
    ensures forall v: nat | v < 256 :: grayLevelMapping[v] == MapTo(n, v)
  {
    for j := 0 to |histo|
      invariant forall v: nat | j > 0 && v < LEVELS :: sums[v] == FirstShares(n, rows, v, j)
    {
      for k := 0 to LEVELS
        invariant forall v: nat | v < k :: sums[v] == FirstShares(n, rows, v, j + 1)
        invariant forall v: nat | j > 0 && k <= v < LEVELS :: sums[v] == FirstShares(n, rows, v, j)
      {
        NextShare(n, rows, k, j);
        if j == 0 { sums[k] := histo[j][k]; } else { sums[k] := sums[k] + histo[j][k]; }
      }
    }
    SomePixels(n);
    var cdf, pixels := 0.0, RowAt(n, n);
    for j := 0 to LEVELS
      invariant forall v: nat | v < LEVELS :: sums[v] == FirstShares(n, rows, v, |rows|)
      invariant cdf == Fraction(pixels, UpTo(n, j - 1))
      invariant forall v: nat | v < j :: grayLevelMapping[v] == MapTo(n, v)
    {
      AllShares(n, rows, j);
      FractionAdds(pixels, UpTo(n, j - 1), Whole(n, j));
      cdf := cdf + Fraction(pixels, sums[j]);
      grayLevelMapping[j] := Level(cdf);
    }
  }
}
