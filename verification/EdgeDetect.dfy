/** Edge detection on an n by n image: blur, two Sobel filters, threshold. What each function computes for
    the rows startIndx..endIndx it is given, and the image the whole pipeline makes. */
module EdgeDetect {
  import opened Arithmetic
  import opened Grid

  /** The pixel of a row and a column. */
  type Image = (nat, nat) -> int

  /** A 3 by 3 kernel, row by row. */
  type Filter = s: seq<int> | |s| == 9 witness [0, 0, 0, 0, 0, 0, 0, 0, 0]

  const GAUSSIAN: Filter := [1, 2, 1, 2, 4, 2, 1, 2, 1]
  const VERTICAL_SOBEL: Filter := [1, 0, -1, 2, 0, -2, 1, 0, -1]
  const HORIZONTAL_SOBEL: Filter := [1, 2, 1, 0, 0, 0, -1, -2, -1]

  /** The first k products of the 3 by 3 neighbourhood whose top left corner is (r, c). */
  function Products(image: Image, kernel: Filter, r: nat, c: nat, k: nat): int
    requires k <= 9
  {
    if k == 0 then 0
    else Products(image, kernel, r, c, k - 1) + image(r + (k - 1) / 3, c + (k - 1) % 3) * kernel[k - 1]
  }

  function Magnitudes(kernel: Filter, k: nat): nat
    requires k <= 9
  {
    if k == 0 then 0 else Magnitudes(kernel, k - 1) + Magnitude(kernel[k - 1])
  }

  function NormalFactor(kernel: Filter): (f: nat)
    ensures f > 0
  {
    if Magnitudes(kernel, 9) == 0 then 1 else Magnitudes(kernel, 9)
  }

  /** The output pixel at (i, j), off the border. */
  function Convolved(image: Image, kernel: Filter, i: nat, j: nat): int
    requires i > 0 && j > 0
  {
    TruncDiv(Products(image, kernel, i - 1, j - 1, 9), NormalFactor(kernel))
  }

  /** Pixels off the image's border. */
  predicate Inner(n: nat, i: nat, j: nat) { 0 < i && i + 1 < n && 0 < j && j + 1 < n }

  predicate Bounded(image: Image, i: nat, j: nat, bound: nat) { Magnitude(image(i, j)) <= bound }

  ghost predicate Near(image: Image, i: nat, j: nat, bound: nat)
    requires i > 0 && j > 0
  {
    forall a: nat, b: nat | i - 1 <= a <= i + 1 && j - 1 <= b <= j + 1 :: Bounded(image, a, b, bound)
  }

  lemma {:induction false} ProductsBound(image: Image, kernel: Filter, i: nat, j: nat, k: nat, bound: nat)
    requires i > 0 && j > 0 && k <= 9 && Near(image, i, j, bound)
    ensures Magnitude(Products(image, kernel, i - 1, j - 1, k)) <= bound * Magnitudes(kernel, k)
  {
    if k > 0 {
      ProductsBound(image, kernel, i, j, k - 1, bound);
      var a, b := i - 1 + (k - 1) / 3, j - 1 + (k - 1) % 3;
      assert Bounded(image, a, b, bound);
      TermBound(image(a, b), kernel[k - 1], bound);
      Distribute(bound, Magnitudes(kernel, k - 1), Magnitude(kernel[k - 1]));
    }
  }

  lemma ConvolvedTruncates(image: Image, kernel: Filter, i: nat, j: nat)
    requires i > 0 && j > 0
    ensures Truncates(Convolved(image, kernel, i, j), Products(image, kernel, i - 1, j - 1, 9), NormalFactor(kernel))
  {
    TruncDivTruncates(Products(image, kernel, i - 1, j - 1, 9), NormalFactor(kernel));
  }

  lemma {:induction false} MagnitudesGrow(kernel: Filter, k: nat, l: nat)
    requires k <= l <= 9
    ensures Magnitudes(kernel, k) <= Magnitudes(kernel, l)
  {
    if k < l { MagnitudesGrow(kernel, k, l - 1); }
  }

  lemma FilterWeights()
    ensures Magnitudes(GAUSSIAN, 9) == 16 && Magnitudes(VERTICAL_SOBEL, 9) == 8 && Magnitudes(HORIZONTAL_SOBEL, 9) == 8
  {
  }

  /** Convolution never increases the largest magnitude, whatever the kernel. */
  lemma ConvolutionBounded(image: Image, kernel: Filter, i: nat, j: nat, bound: nat)
    requires i > 0 && j > 0 && Near(image, i, j, bound)
    ensures Magnitude(Convolved(image, kernel, i, j)) <= bound
  {
    var f, s := NormalFactor(kernel), Products(image, kernel, i - 1, j - 1, 9);
    ProductsBound(image, kernel, i, j, 9, bound);
    TruncDivBound(s, f, bound);
  }

  ghost predicate AlikeNear(p: Image, q: Image, i: nat, j: nat)
    requires i > 0 && j > 0
  {
    forall a: nat, b: nat | i - 1 <= a <= i + 1 && j - 1 <= b <= j + 1 :: p(a, b) == q(a, b)
  }

  lemma {:induction false} ProductsAlike(p: Image, q: Image, kernel: Filter, i: nat, j: nat, k: nat)
    requires i > 0 && j > 0 && k <= 9 && AlikeNear(p, q, i, j)
    ensures Products(p, kernel, i - 1, j - 1, k) == Products(q, kernel, i - 1, j - 1, k)
  {
    if k > 0 { ProductsAlike(p, q, kernel, i, j, k - 1); }
  }

  /** A pixel of the convolution depends on its neighbourhood only. */
  lemma ConvolvedAlike(p: Image, q: Image, kernel: Filter, i: nat, j: nat)
    requires i > 0 && j > 0 && AlikeNear(p, q, i, j)
    ensures Convolved(p, kernel, i, j) == Convolved(q, kernel, i, j)
  {
    ProductsAlike(p, q, kernel, i, j, 9);
  }

  /** The pipeline on the whole image, pixel by pixel. */
  function Ramp(i: nat, j: nat): int { i + j }

  function Blurred(n: nat, i: nat, j: nat): int {
    if Inner(n, i, j) then Convolved(Ramp, GAUSSIAN, i, j) else 0
  }

  function BlurredImage(n: nat): Image { (i: nat, j: nat) => Blurred(n, i, j) }

  /** convolve2d leaves the border of its output alone: buffer 1 still has the input there. */
  function Vertical(n: nat, i: nat, j: nat): int {
    if Inner(n, i, j) then Convolved(BlurredImage(n), VERTICAL_SOBEL, i, j) else Ramp(i, j)
  }

  function Horizontal(n: nat, i: nat, j: nat): int {
    if Inner(n, i, j) then Convolved(BlurredImage(n), HORIZONTAL_SOBEL, i, j) else 0
  }

  const THRESHOLD := 127

  function Thresholded(a: int, b: int): int {
    var larger := if Magnitude(a) > Magnitude(b) then Magnitude(a) else Magnitude(b);
    if larger > THRESHOLD then 255 else 0
  }

  function Edge(n: nat, i: nat, j: nat): int { Thresholded(Vertical(n, i, j), Horizontal(n, i, j)) }

  /** No pixel of any stage leaves the range of the input. */
  lemma BlurredBounded(n: nat, i: nat, j: nat)
    requires i < n && j < n
    ensures Magnitude(Blurred(n, i, j)) <= 2 * n
  {
    if Inner(n, i, j) {
      assert Near(Ramp, i, j, 2 * n);
      ConvolutionBounded(Ramp, GAUSSIAN, i, j, 2 * n);
    }
  }

  lemma StagesBounded(n: nat, i: nat, j: nat)
    requires i < n && j < n
    ensures Magnitude(Vertical(n, i, j)) <= 2 * n && Magnitude(Horizontal(n, i, j)) <= 2 * n
  {
    if Inner(n, i, j) {
      forall a: nat, b: nat | i - 1 <= a <= i + 1 && j - 1 <= b <= j + 1
        ensures Bounded(BlurredImage(n), a, b, 2 * n)
      {
        BlurredBounded(n, a, b);
      }
      ConvolutionBounded(BlurredImage(n), VERTICAL_SOBEL, i, j, 2 * n);
      ConvolutionBounded(BlurredImage(n), HORIZONTAL_SOBEL, i, j, 2 * n);
    }
  }

  /** The rows fxnTest1 asks convolve2d for: its own and one on each side that has one. */
  function HaloStart(startIndx: nat): nat { if startIndx != 0 then startIndx - 1 else startIndx }

  function HaloEnd(n: nat, endIndx: nat): nat { if endIndx != n then endIndx + 1 else endIndx }

  /** convolve2d's loops, asked for rows lo..hi, write pixel (i, j). */
  predicate Writes(n: nat, lo: nat, hi: nat, i: nat, j: nat) {
    lo <= i - 1 < hi - 3 + 1 && 0 <= j - 1 < n - 3 + 1
  }

  /** With its halo a thread writes exactly the inner pixels of its own rows. */
  lemma HaloWritesOwnRows(n: nat, startIndx: nat, endIndx: nat, i: nat, j: nat)
    requires startIndx <= endIndx <= n
    ensures Writes(n, HaloStart(startIndx), HaloEnd(n, endIndx), i, j) <==> startIndx <= i < endIndx && Inner(n, i, j)
  {
  }

  /** The array that begins at base, seen as an image. */
  function PixelAt(n: nat, base: nat, m: seq<int>, i: nat, j: nat): int {
    if base + At(n, i, j) < |m| then m[base + At(n, i, j)] else 0
  }

  function View(n: nat, base: nat, m: seq<int>): Image { (i: nat, j: nat) => PixelAt(n, base, m, i, j) }

  /** set_filter. */
  method SetFilter(filter: array<int>, kind: Filter)
    requires filter.Length == 9
    modifies filter
    ensures filter[..] == kind
  {
    for r := 0 to 3
      invariant forall k: nat | k < 3 * r :: filter[k] == kind[k]
    {
      filter[3 * r], filter[3 * r + 1], filter[3 * r + 2] := kind[3 * r], kind[3 * r + 1], kind[3 * r + 2];
    }
  }

  /** The normalization factor: the first loop nest of convolve2d. */
  method SumMagnitudes(kernel: array<int>) returns (normalFactor: nat)
    requires kernel.Length == 9
    ensures normalFactor == NormalFactor(kernel[..])
  {
    normalFactor := 0;
    for r := 0 to 3
      invariant normalFactor == Magnitudes(kernel[..], 3 * r)
    {
      for c := 0 to 3
        invariant normalFactor == Magnitudes(kernel[..], 3 * r + c)
      {
        normalFactor := normalFactor + Magnitude(kernel[3 * r + c]);
      }
    }
    if normalFactor == 0 { normalFactor := 1; }
  }

  lemma ProductsNone(image: Image, kernel: Filter, r: nat, c: nat)
    ensures Products(image, kernel, r, c, 0) == 0
  {
  }

  lemma ProductsNext(image: Image, kernel: Filter, r: nat, c: nat, i: nat, j: nat)
    requires i < 3 && j < 3
    ensures Products(image, kernel, r, c, 3 * i + j + 1)
         == Products(image, kernel, r, c, 3 * i + j) + image(r + i, c + j) * kernel[3 * i + j]
  {
  }

  lemma ViewAt(n: nat, m: seq<int>, i: nat, j: nat)
    requires i < n && j < n && |m| == RowAt(n, n)
    ensures At(n, i, j) < |m| && View(n, 0, m)(i, j) == m[At(n, i, j)]
  {
    AtInside(n, i, j);
  }

  /** Its innermost loops. */
  method SumProducts(image: array<int>, kernel: array<int>, n: nat, r: nat, c: nat) returns (sum: int)
    requires kernel.Length == 9 && image.Length == RowAt(n, n) && r + 2 < n && c + 2 < n
    ensures sum == Products(View(n, 0, image[..]), kernel[..], r, c, 9)
  {
    hide Products, View, RowAt;
    ghost var view := View(n, 0, image[..]);
    sum := 0;
    ProductsNone(view, kernel[..], r, c);
    for i := 0 to 3
      invariant sum == Products(view, kernel[..], r, c, 3 * i)
    {
      for j := 0 to 3
        invariant sum == Products(view, kernel[..], r, c, 3 * i + j)
      {
        ViewAt(n, image[..], r + i, c + j);
        ProductsNext(view, kernel[..], r, c, i, j);
        sum := sum + image[At(n, r + i, c + j)] * kernel[3 * i + j];
      }
    }
  }

  /** What convolve2d makes of the image once its loops, begun at row lo, have come to output pixel `to`. */
  ghost predicate ConvolvedTo(n: nat, lo: nat, image: Image, kernel: Filter, to: nat, was: seq<int>, now: seq<int>)
    requires n > 0
  {
    && |now| == |was|
    && forall c: nat | c < |was| :: now[c] == PixelTo(n, lo, image, kernel, to, c, was[c])
  }

  ghost function PixelTo(n: nat, lo: nat, image: Image, kernel: Filter, to: nat, c: nat, was: int): int
    requires n > 0
  {
    var i, j := Row(n, c), Col(n, c);
    if lo < i && c < to && 0 < j && j + 1 < n then Convolved(image, kernel, i, j) else was
  }

  lemma ConvolvedNext(n: nat, lo: nat, image: Image, kernel: Filter, i: nat, j: nat,
                      was: seq<int>, now: seq<int>, v: int)
    requires lo < i < n && j < n && |was| == RowAt(n, n)
    requires ConvolvedTo(n, lo, image, kernel, At(n, i, j), was, now)
    requires At(n, i, j) < |now| && v == if 0 < j < n - 1 then Convolved(image, kernel, i, j) else now[At(n, i, j)]
    ensures ConvolvedTo(n, lo, image, kernel, At(n, i, j) + 1, was, now[At(n, i, j) := v])
  {
    hide Convolved;
    AtInside(n, i, j);
  }

  /** The border pixels of a row are skipped. */
  lemma ConvolvedBorder(n: nat, lo: nat, image: Image, kernel: Filter, i: nat, j: nat, was: seq<int>, now: seq<int>)
    requires lo < i < n && (j == 0 || j == n - 1) && |was| == RowAt(n, n)
    requires ConvolvedTo(n, lo, image, kernel, At(n, i, j), was, now)
    ensures ConvolvedTo(n, lo, image, kernel, At(n, i, j) + 1, was, now)
  {
    AtInside(n, i, j);
    ConvolvedNext(n, lo, image, kernel, i, j, was, now, now[At(n, i, j)]);
    assert now[At(n, i, j) := now[At(n, i, j)]] == now;
  }

  /** Its loop over the columns. */
  method ConvolveRow(inputImage: array<int>, kernel: array<int>, outputImage: array<int>, n: nat, r: nat,
                     normalFactor: nat, ghost lo: nat, ghost was: seq<int>)
    requires r + 2 < n && kernel.Length == 9 && inputImage.Length == outputImage.Length == |was| == RowAt(n, n)
    requires inputImage != outputImage && kernel != outputImage && lo <= r && normalFactor == NormalFactor(kernel[..])
    requires ConvolvedTo(n, lo, View(n, 0, inputImage[..]), kernel[..], RowAt(n, r + 1), was, outputImage[..])
    modifies outputImage
    ensures ConvolvedTo(n, lo, View(n, 0, inputImage[..]), kernel[..], RowAt(n, r + 2), was, outputImage[..])
  {
    hide ConvolvedTo, RowAt, View, Products, NormalFactor;
    ghost var image := View(n, 0, inputImage[..]);
    ConvolvedBorder(n, lo, image, kernel[..], r + 1, 0, was, outputImage[..]);
    for c := 0 to n - 3 + 1
      invariant ConvolvedTo(n, lo, image, kernel[..], At(n, r + 1, c + 1), was, outputImage[..])
    {
      var sum := SumProducts(inputImage, kernel, n, r, c);
      AtInside(n, r + 1, c + 1);
      ConvolvedNext(n, lo, image, kernel[..], r + 1, c + 1, was, outputImage[..], TruncDiv(sum, normalFactor));
      outputImage[At(n, r + 1, c + 1)] := TruncDiv(sum, normalFactor);
    }
    ConvolvedBorder(n, lo, image, kernel[..], r + 1, n - 1, was, outputImage[..]);
    RowShift(n, r + 1);
  }

  lemma ConvolvedStart(n: nat, lo: nat, image: Image, kernel: Filter, was: seq<int>)
    requires n > 0 && |was| == RowAt(n, n)
    ensures ConvolvedTo(n, lo, image, kernel, RowAt(n, lo + 1), was, was)
  {
    forall c: nat | c < RowAt(n, lo + 1) ensures Row(n, c) <= lo { RowBound(n, lo + 1, c); }
  }

  /** Pixel c is written exactly if convolve2d, asked for rows lo..hi, is to write it. */
  lemma ConvolvedEnd(n: nat, lo: nat, hi: nat, image: Image, kernel: Filter, c: nat, was: int)
    requires n > 0 && lo <= hi <= n && c < RowAt(n, n)
    ensures PixelTo(n, lo, image, kernel, RowAt(n, if hi - 1 > lo + 1 then hi - 1 else lo + 1), c, was)
         == if Writes(n, lo, hi, Row(n, c), Col(n, c)) then Convolved(image, kernel, Row(n, c), Col(n, c)) else was
  {
    hide Convolved;
    var rows := if hi - 1 > lo + 1 then hi - 1 else lo + 1;
    RowCol(n, c);
    RowBound(n, n, c);
    if c < RowAt(n, rows) { RowBound(n, rows, c); } else if Row(n, c) < rows { RowMonotone(n, Row(n, c) + 1, rows); }
  }

  /** convolve2d. */
  method Convolve2d(inputImage: array<int>, kernel: array<int>, outputImage: array<int>, n: nat,
                    startIndx: nat, endIndx: nat)
    requires n > 0 && kernel.Length == 9 && inputImage.Length == outputImage.Length == RowAt(n, n)
    requires startIndx <= endIndx <= n && inputImage != outputImage && kernel != outputImage
    modifies outputImage
    ensures forall c: nat | c < RowAt(n, n) ::
              outputImage[c] == if Writes(n, startIndx, endIndx, Row(n, c), Col(n, c))
                                then Convolved(View(n, 0, inputImage[..]), kernel[..], Row(n, c), Col(n, c))
                                else old(outputImage[c])
    ensures forall c: nat | c < RowAt(n, n) && Writes(n, startIndx, endIndx, Row(n, c), Col(n, c)) ::
              Truncates(outputImage[c],
                        Products(View(n, 0, inputImage[..]), kernel[..], Row(n, c) - 1, Col(n, c) - 1, 9),
                        NormalFactor(kernel[..]))
  {
    hide Convolved, View, RowAt, PixelTo;
    var normalFactor := SumMagnitudes(kernel);
    ghost var was, image := outputImage[..], View(n, 0, inputImage[..]);
    var r := startIndx;
    ConvolvedStart(n, startIndx, image, kernel[..], was);
    while r < endIndx - 3 + 1
      invariant startIndx <= r && (r == startIndx || r <= endIndx - 2)
      invariant ConvolvedTo(n, startIndx, image, kernel[..], RowAt(n, r + 1), was, outputImage[..])
    {
      ConvolveRow(inputImage, kernel, outputImage, n, r, normalFactor, startIndx, was);
      r := r + 1;
    }
    forall c: nat | c < RowAt(n, n) { ConvolvedEnd(n, startIndx, endIndx, image, kernel[..], c, was[c]); }
    forall c: nat | c < RowAt(n, n) && Writes(n, startIndx, endIndx, Row(n, c), Col(n, c)) {
      ConvolvedTruncates(image, kernel[..], Row(n, c), Col(n, c));
    }
  }

  ghost predicate Started(n: nat, c: nat, b1: seq<int>, b2: seq<int>, b3: seq<int>)
    requires n > 0 && c < |b1| && c < |b2| && c < |b3|
  {
    b1[c] == Ramp(Row(n, c), Col(n, c)) && b2[c] == 0 && b3[c] == 0
  }

  /** initialize. */
  method Initialize(buffer1: array<int>, buffer2: array<int>, buffer3: array<int>, n: nat,
                    startIndx: nat, endIndx: nat)
    requires n > 0 && startIndx <= endIndx <= n && buffer1 != buffer2 && buffer1 != buffer3 && buffer2 != buffer3
    requires buffer1.Length == buffer2.Length == buffer3.Length == RowAt(n, n)
    modifies buffer1, buffer2, buffer3
    ensures forall c: nat | c < RowAt(n, n) ::
              if RowAt(n, startIndx) <= c < RowAt(n, endIndx) then Started(n, c, buffer1[..], buffer2[..], buffer3[..])
              else buffer1[c] == old(buffer1[c]) && buffer2[c] == old(buffer2[c]) && buffer3[c] == old(buffer3[c])
  {
    ghost var lo := RowAt(n, startIndx);
    for i := startIndx to endIndx
      invariant lo <= RowAt(n, i)
      invariant forall c: nat | c < RowAt(n, n) ::
                  if lo <= c < RowAt(n, i) then Started(n, c, buffer1[..], buffer2[..], buffer3[..])
                  else buffer1[c] == old(buffer1[c]) && buffer2[c] == old(buffer2[c]) && buffer3[c] == old(buffer3[c])
    {
      for j := 0 to n
        invariant forall c: nat | c < RowAt(n, n) ::
                    if lo <= c < At(n, i, j) then Started(n, c, buffer1[..], buffer2[..], buffer3[..])
                    else buffer1[c] == old(buffer1[c]) && buffer2[c] == old(buffer2[c]) && buffer3[c] == old(buffer3[c])
      {
        AtInside(n, i, j);
        buffer1[At(n, i, j)] := i + j;
        buffer2[At(n, i, j)] := 0;
        buffer3[At(n, i, j)] := 0;
      }
    }
  }

  /** apply_threshold. */
  method ApplyThreshold(inputImage1: array<int>, inputImage2: array<int>, outputImage: array<int>, n: nat,
                        startIndx: nat, endIndx: nat)
    requires n > 0 && startIndx <= endIndx <= n && inputImage1 != outputImage && inputImage2 != outputImage
    requires inputImage1.Length == inputImage2.Length == outputImage.Length == RowAt(n, n)
    modifies outputImage
    ensures forall c: nat | c < RowAt(n, n) ::
              outputImage[c] == if RowAt(n, startIndx) <= c < RowAt(n, endIndx)
                                then Thresholded(inputImage1[c], inputImage2[c]) else old(outputImage[c])
  {
    ghost var lo := RowAt(n, startIndx);
    for i := startIndx to endIndx
      invariant lo <= RowAt(n, i)
      invariant forall c: nat | c < RowAt(n, n) ::
                  outputImage[c] == if lo <= c < RowAt(n, i) then Thresholded(inputImage1[c], inputImage2[c])
                                    else old(outputImage[c])
    {
      for j := 0 to n
        invariant forall c: nat | c < RowAt(n, n) ::
                    outputImage[c] == if lo <= c < At(n, i, j) then Thresholded(inputImage1[c], inputImage2[c])
                                      else old(outputImage[c])
      {
        AtInside(n, i, j);
        var temp1, temp2 := Magnitude(inputImage1[At(n, i, j)]), Magnitude(inputImage2[At(n, i, j)]);
        var temp3 := if temp1 > temp2 then temp1 else temp2;
        outputImage[At(n, i, j)] := if temp3 > THRESHOLD then 255 else 0;
      }
    }
  }

  /** m holds image at every pixel. */
  ghost predicate Shows(n: nat, m: seq<int>, image: Image)
    requires n > 0
  {
    |m| == RowAt(n, n) && forall c: nat | c < |m| :: m[c] == image(Row(n, c), Col(n, c))
  }

  /** What convolve2d reads around an inner pixel it reads from the image shown. */
  lemma ShownConvolved(n: nat, m: seq<int>, image: Image, kernel: Filter, i: nat, j: nat)
    requires Inner(n, i, j) && Shows(n, m, image)
    ensures Convolved(View(n, 0, m), kernel, i, j) == Convolved(image, kernel, i, j)
  {
    forall a: nat, b: nat | i - 1 <= a <= i + 1 && j - 1 <= b <= j + 1 ensures View(n, 0, m)(a, b) == image(a, b) {
      AtInside(n, a, b);
    }
    ConvolvedAlike(View(n, 0, m), image, kernel, i, j);
  }

  /** One convolution of the whole image shown in input. */
  method ConvolveAll(inputImage: array<int>, kernel: array<int>, outputImage: array<int>, n: nat, ghost image: Image)
    requires n > 0 && kernel.Length == 9 && inputImage.Length == outputImage.Length == RowAt(n, n)
    requires inputImage != outputImage && kernel != outputImage && Shows(n, inputImage[..], image)
    modifies outputImage
    ensures forall c: nat | c < RowAt(n, n) ::
              outputImage[c] == if Inner(n, Row(n, c), Col(n, c))
                                then Convolved(image, kernel[..], Row(n, c), Col(n, c)) else old(outputImage[c])
  {
    hide Convolved, View, RowAt, Shows;
    ghost var m := inputImage[..];
    Convolve2d(inputImage, kernel, outputImage, n, 0, n);
    forall c: nat | c < RowAt(n, n) && Inner(n, Row(n, c), Col(n, c)) {
      ShownConvolved(n, m, image, kernel[..], Row(n, c), Col(n, c));
    }
    forall c: nat | c < RowAt(n, n)
      ensures Row(n, c) < n && (Writes(n, 0, n, Row(n, c), Col(n, c)) <==> Inner(n, Row(n, c), Col(n, c)))
    {
      RowBound(n, n, c);
      HaloWritesOwnRows(n, 0, n, Row(n, c), Col(n, c));
    }
  }

  function VerticalImage(n: nat): Image { (i: nat, j: nat) => Vertical(n, i, j) }

  function HorizontalImage(n: nat): Image { (i: nat, j: nat) => Horizontal(n, i, j) }

  function EdgeImage(n: nat): Image { (i: nat, j: nat) => Edge(n, i, j) }

  /** One iteration of fxnTest1 by a processor that has the whole image: the result every division of the
      rows has to give. */
  method DetectEdges(buffer1: array<int>, buffer2: array<int>, buffer3: array<int>, filter: array<int>, n: nat)
    requires n > 0 && filter.Length == 9 && buffer1 != buffer2 && buffer1 != buffer3 && buffer2 != buffer3
    requires buffer1.Length == buffer2.Length == buffer3.Length == RowAt(n, n)
    requires filter != buffer1 && filter != buffer2 && filter != buffer3
    modifies buffer1, buffer2, buffer3, filter
    ensures Shows(n, buffer1[..], VerticalImage(n)) && Shows(n, buffer2[..], HorizontalImage(n))
    ensures Shows(n, buffer3[..], EdgeImage(n))
  {
    hide Convolved, View;
    Initialize(buffer1, buffer2, buffer3, n, 0, n);
    SetFilter(filter, GAUSSIAN);
    ConvolveAll(buffer1, filter, buffer3, n, Ramp);
    SetFilter(filter, VERTICAL_SOBEL);
    ConvolveAll(buffer3, filter, buffer1, n, BlurredImage(n));
    SetFilter(filter, HORIZONTAL_SOBEL);
    ConvolveAll(buffer3, filter, buffer2, n, BlurredImage(n));
    ApplyThreshold(buffer1, buffer2, buffer3, n, 0, n);
  }
}
