/** The pipeline's pixels written out: the three kernels' sums, and the image the kernel's own input gives. */
module EdgePixels {
  import opened Arithmetic
  import opened EdgeDetect

  lemma NineProducts(image: Image, kernel: Filter, r: nat, c: nat)
    ensures Products(image, kernel, r, c, 9)
         == image(r, c) * kernel[0] + image(r, c + 1) * kernel[1] + image(r, c + 2) * kernel[2]
            + image(r + 1, c) * kernel[3] + image(r + 1, c + 1) * kernel[4] + image(r + 1, c + 2) * kernel[5]
            + image(r + 2, c) * kernel[6] + image(r + 2, c + 1) * kernel[7] + image(r + 2, c + 2) * kernel[8]
  {
    hide Products;
    ProductsNone(image, kernel, r, c);
    ProductsNext(image, kernel, r, c, 0, 0);
    ProductsNext(image, kernel, r, c, 0, 1);
    ProductsNext(image, kernel, r, c, 0, 2);
    ProductsNext(image, kernel, r, c, 1, 0);
    ProductsNext(image, kernel, r, c, 1, 1);
    ProductsNext(image, kernel, r, c, 1, 2);
    ProductsNext(image, kernel, r, c, 2, 0);
    ProductsNext(image, kernel, r, c, 2, 1);
    ProductsNext(image, kernel, r, c, 2, 2);
  }

  lemma Factors()
    ensures NormalFactor(GAUSSIAN) == 16 && NormalFactor(VERTICAL_SOBEL) == 8 && NormalFactor(HORIZONTAL_SOBEL) == 8
  {
    FilterWeights();
  }

  /** The Gaussian kernel weighs its centre 4, its sides 2 and its corners 1. */
  lemma GaussianPixel(image: Image, i: nat, j: nat)
    requires i > 0 && j > 0
    ensures Truncates(Convolved(image, GAUSSIAN, i, j),
                      image(i - 1, j - 1) + 2 * image(i - 1, j) + image(i - 1, j + 1)
                      + 2 * image(i, j - 1) + 4 * image(i, j) + 2 * image(i, j + 1)
                      + image(i + 1, j - 1) + 2 * image(i + 1, j) + image(i + 1, j + 1), 16)
  {
    hide Products, Convolved, Truncates, NormalFactor;
    Factors();
    NineProducts(image, GAUSSIAN, i - 1, j - 1);
    ConvolvedTruncates(image, GAUSSIAN, i, j);
  }

  /** The vertical Sobel kernel takes the right column from the left one, the horizontal one the lower row from
      the upper one. */
  lemma SobelPixels(image: Image, i: nat, j: nat)
    requires i > 0 && j > 0
    ensures Truncates(Convolved(image, VERTICAL_SOBEL, i, j),
                      image(i - 1, j - 1) + 2 * image(i, j - 1) + image(i + 1, j - 1)
                      - image(i - 1, j + 1) - 2 * image(i, j + 1) - image(i + 1, j + 1), 8)
    ensures Truncates(Convolved(image, HORIZONTAL_SOBEL, i, j),
                      image(i - 1, j - 1) + 2 * image(i - 1, j) + image(i - 1, j + 1)
                      - image(i + 1, j - 1) - 2 * image(i + 1, j) - image(i + 1, j + 1), 8)
  {
    hide Products, Convolved, Truncates, NormalFactor;
    Factors();
    NineProducts(image, VERTICAL_SOBEL, i - 1, j - 1);
    ConvolvedTruncates(image, VERTICAL_SOBEL, i, j);
    NineProducts(image, HORIZONTAL_SOBEL, i - 1, j - 1);
    ConvolvedTruncates(image, HORIZONTAL_SOBEL, i, j);
  }

  /** A pixel is an edge exactly if one of the two filtered images exceeds 127 there, either way. */
  lemma EdgeIff(n: nat, i: nat, j: nat)
    ensures Edge(n, i, j) == 255 || Edge(n, i, j) == 0
    ensures Edge(n, i, j) == 255
       <==> || Vertical(n, i, j) > 127 || Vertical(n, i, j) < -127
            || Horizontal(n, i, j) > 127 || Horizontal(n, i, j) < -127
  {
    hide Vertical, Horizontal;
  }

  /** On the border the blurred image is 0, the vertical one keeps the input and the horizontal one is 0. */
  lemma BorderPixels(n: nat, i: nat, j: nat)
    requires i < n && j < n && (i == 0 || i == n - 1 || j == 0 || j == n - 1)
    ensures Blurred(n, i, j) == 0 && Vertical(n, i, j) == i + j && Horizontal(n, i, j) == 0
  {
  }

  /** Off the border blurring leaves the input i + j as it is. */
  lemma BlurKeepsRamp(n: nat, i: nat, j: nat)
    requires 0 < i < n - 1 && 0 < j < n - 1
    ensures Blurred(n, i, j) == i + j
  {
    hide Convolved;
    GaussianPixel(Ramp, i, j);
    TruncatesOnce(Blurred(n, i, j), i + j, 16 * (i + j), 16);
  }

  lemma FilteredPixels(n: nat, i: nat, j: nat)
    requires 0 < i < n - 1 && 0 < j < n - 1
    ensures Truncates(Vertical(n, i, j),
                      Blurred(n, i - 1, j - 1) + 2 * Blurred(n, i, j - 1) + Blurred(n, i + 1, j - 1)
                      - Blurred(n, i - 1, j + 1) - 2 * Blurred(n, i, j + 1) - Blurred(n, i + 1, j + 1), 8)
    ensures Truncates(Horizontal(n, i, j),
                      Blurred(n, i - 1, j - 1) + 2 * Blurred(n, i - 1, j) + Blurred(n, i - 1, j + 1)
                      - Blurred(n, i + 1, j - 1) - 2 * Blurred(n, i + 1, j) - Blurred(n, i + 1, j + 1), 8)
  {
    hide Convolved, Blurred, Truncates;
    SobelPixels(BlurredImage(n), i, j);
  }

  /** Two pixels and more from the border both filters see a slope of -1 and there is no edge. */
  lemma NoEdgesInside(n: nat, i: nat, j: nat)
    requires 2 <= i < n - 2 && 2 <= j < n - 2
    ensures Vertical(n, i, j) == -1 && Horizontal(n, i, j) == -1 && Edge(n, i, j) == 0
  {
    hide Blurred, Vertical, Horizontal;
    forall a: nat, b: nat | i - 1 <= a <= i + 1 && j - 1 <= b <= j + 1 ensures Blurred(n, a, b) == a + b {
      BlurKeepsRamp(n, a, b);
    }
    FilteredPixels(n, i, j);
    TruncatesOnce(Vertical(n, i, j), -1, -8, 8);
    TruncatesOnce(Horizontal(n, i, j), -1, -8, 8);
  }

  /** Beside the left border the vertical filter sees the jump from 0: an edge from row 254 on. */
  lemma EdgesBesideBorder(n: nat, i: nat)
    requires 2 <= i < n - 2
    ensures Vertical(n, i, 1) == -((i + 2) / 2) && Horizontal(n, i, 1) == 0
    ensures Edge(n, i, 1) == if i >= 254 then 255 else 0
  {
    hide Blurred, Vertical, Horizontal;
    forall a: nat | i - 1 <= a <= i + 1
      ensures Blurred(n, a, 0) == 0 && Blurred(n, a, 1) == a + 1 && Blurred(n, a, 2) == a + 2
    {
      BorderPixels(n, a, 0);
      BlurKeepsRamp(n, a, 1);
      BlurKeepsRamp(n, a, 2);
    }
    FilteredPixels(n, i, 1);
    TruncatesOnce(Vertical(n, i, 1), -((i + 2) / 2), -(4 * i + 8), 8);
    TruncatesOnce(Horizontal(n, i, 1), 0, -6, 8);
  }
}
