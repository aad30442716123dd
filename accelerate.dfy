/** The bilateral pixel-affinity builder of the Laplacian denoiser: a 3 x 3 neighbour
    scan over one channel whose edge weight multiplies a spatial and an intensity
    kernel, stored as (row, col, value) triplets, and the degree vector
    D = W.sum(axis=1). */
module Accelerate {
  import opened Numeric
  import opened Grid
  import opened PixelGraph

  /** The offsets the two inner loops visit: di from -1 to 1, and for each dj from -1
      to 1. The offset (0, 0) is not skipped, so every pixel is its own neighbour. */
  function Window(): (offs: seq<(int, int)>)
    ensures |offs| == 9
  {
    [(-1, -1), (-1, 0), (-1, 1), (0, -1), (0, 0), (0, 1), (1, -1), (1, 0), (1, 1)]
  }

  /** Pass (di, dj) of the inner loops visits window entry 3 * (di + 1) + (dj + 1). */
  lemma {:induction false} WindowAt(di: int, dj: int)
    requires -1 <= di <= 1 && -1 <= dj <= 1
    ensures Window()[3 * (di + 1) + (dj + 1)] == (di, dj)
  {
  }

  /** The window holds exactly the offsets within one row and one column. */
  lemma {:induction false} WindowMembers(o: (int, int))
    ensures o in Window() <==> -1 <= o.0 <= 1 && -1 <= o.1 <= 1
  {
    if -1 <= o.0 <= 1 && -1 <= o.1 <= 1 {
      WindowAt(o.0, o.1);
    }
  }

  lemma {:induction false} WindowDistinct()
    ensures DistinctOffsets(Window())
  {
    forall a, b | 0 <= a < b < 9
      ensures Window()[a] != Window()[b]
    {
      var o, o' := Window()[a], Window()[b];
      assert o == (a / 3 - 1, a % 3 - 1);
      assert o' == (b / 3 - 1, b % 3 - 1);
    }
  }

  // ---------------------------------------------------------------------------
  // The edge weight, as written and as intended.

  /** numpy's unary minus on a uint8 value: it wraps modulo 256. */
  function NegByte(t: int): (r: int)
    ensures 0 <= r < 256
    ensures t % 256 == 0 <==> r == 0
    ensures 0 < t < 256 ==> r == 256 - t
  {
    (-t) % 256
  }

  // np.exp(x / (2 * sigma**2)) is, for either bandwidth, again positive, strictly
  // increasing and 1 at 0. The model takes these two scaled exponentials as parameters,
  // `spatial` for sigma_s and `tonal` for sigma_r, and applies them to the exponents'
  // numerators.

  /** The numerator of the intensity exponent as the builder evaluates it under NumPy 2
      scalar promotion. The two pixels are numpy uint8 scalars, so `(a - b)**2` wraps
      modulo 256, and so does the unary minus in front of it; only the division by
      `2 * sigma_r**2` leaves uint8. `LegacyRangeNumerator` is the NumPy 1.x reading. */
  function RangeNumerator(a: int, b: int): int
  {
    NegByte(WrapSq(a, b))
  }

  /** The triplet value for a neighbour at offset (di, dj) with intensities a and b:
      `spatial_diff`, `intensity_diff` and `weight` of the inner loop body in one
      expression. */
  function Weight(spatial: real -> real, tonal: real -> real, di: int, dj: int, a: int, b: int): real
  {
    spatial(-(SpatialDiff((di, dj)) as real)) * tonal(RangeNumerator(a, b) as real)
  }

  /** Every weight as written is positive, and the weight of a pixel to itself is 1. */
  lemma {:induction false} WeightPositive(spatial: real -> real, tonal: real -> real, di: int, dj: int, a: int, b: int)
    requires ExpLike(spatial) && ExpLike(tonal)
    ensures 0.0 < Weight(spatial, tonal, di, dj, a, b)
    ensures di == 0 && dj == 0 && a == b ==> Weight(spatial, tonal, di, dj, a, b) == 1.0
  {
    var x, y := spatial(-(SpatialDiff((di, dj)) as real)), tonal(RangeNumerator(a, b) as real);
    MulStrict(y, 0.0, x);
  }

  /** The numerator as written is never negative: the intensity factor is at least 1. */
  lemma {:induction false} RangeFactorAtLeastOne(tonal: real -> real, a: int, b: int)
    requires ExpLike(tonal)
    ensures 0 <= RangeNumerator(a, b) && 1.0 <= tonal(RangeNumerator(a, b) as real)
  {
    if RangeNumerator(a, b) > 0 {
      ExpAboveOne(tonal, RangeNumerator(a, b) as real);
    }
  }

  /** Two neighbours whose uint8 intensities are 0 and 1 get the intensity factor
      exp(255 / (2 sigma_r**2)) > 1, where the kernel exp(-1 / (2 sigma_r**2)) < 1 was
      meant. */
  lemma {:induction false} RangeFactorExceedsOne(tonal: real -> real)
    requires ExpLike(tonal)
    ensures RangeNumerator(0, 1) == 255 && 1.0 < tonal(RangeNumerator(0, 1) as real)
    ensures IntendedRangeNumerator(0, 1) == -1 && tonal(IntendedRangeNumerator(0, 1) as real) < 1.0
  {
    assert (0 - 1) % 256 == 255;
    assert 255 * 255 == 256 * 254 + 1;
    assert WrapSq(0, 1) == 1;
    ExpAboveOne(tonal, 255.0);
    assert tonal(-1.0) < tonal(0.0);
  }

  /** The numerator the kernel exp(-intensity_diff / (2 sigma_r**2)) calls for: minus the
      true squared difference. */
  function IntendedRangeNumerator(a: int, b: int): int
  {
    -((a - b) * (a - b))
  }

  function IntendedWeight(spatial: real -> real, tonal: real -> real, di: int, dj: int, a: int, b: int): real
  {
    OffsetWeight(spatial, tonal, di, dj, IntendedRangeNumerator(a, b))
  }

  /** The spatial factor of offset (di, dj) times the tonal factor of numerator n. */
  function OffsetWeight(spatial: real -> real, tonal: real -> real, di: int, dj: int, n: int): real
  {
    spatial(-(SpatialDiff((di, dj)) as real)) * tonal(n as real)
  }

  /** The intended weight lies in (0, 1] and is 1 for a pixel to itself. */
  lemma {:induction false} IntendedWeightInUnit(spatial: real -> real, tonal: real -> real, di: int, dj: int, a: int, b: int)
    requires ExpLike(spatial) && ExpLike(tonal)
    ensures 0.0 < IntendedWeight(spatial, tonal, di, dj, a, b) <= 1.0
  {
    SquareSign(a - b);
    OffsetWeightInUnit(spatial, tonal, di, dj, IntendedRangeNumerator(a, b));
  }

  /** A weight whose tonal numerator is not positive lies in (0, 1]. */
  lemma {:induction false} OffsetWeightInUnit(spatial: real -> real, tonal: real -> real, di: int, dj: int, n: int)
    requires ExpLike(spatial) && ExpLike(tonal) && n <= 0
    ensures 0.0 < OffsetWeight(spatial, tonal, di, dj, n) <= 1.0
  {
    SpatialDiffSign(di, dj);
    FactorsInUnit(spatial, tonal, -(SpatialDiff((di, dj)) as real), n as real);
  }

  /** The intended weight of a pixel to itself is 1. */
  lemma {:induction false} IntendedSelfWeight(spatial: real -> real, tonal: real -> real, a: int)
    requires spatial(0.0) == 1.0 && tonal(0.0) == 1.0
    ensures IntendedWeight(spatial, tonal, 0, 0, a, a) == 1.0
  {
    SquareSign(a - a);
    assert IntendedRangeNumerator(a, a) == 0 && SpatialDiff((0, 0)) == 0;
  }

  /** The weight as written is symmetric in the two pixels: both numerators depend only
      on the squared offset and the wrapped squared difference. */
  lemma {:induction false} WeightSymmetric(spatial: real -> real, tonal: real -> real, di: int, dj: int, a: int, b: int)
    ensures Weight(spatial, tonal, di, dj, a, b) == Weight(spatial, tonal, -di, -dj, b, a)
  {
    assert SpatialDiff((di, dj)) == SpatialDiff((-di, -dj));
    WrapSqSymmetric(a, b);
  }

  /** The intended weight is symmetric in the two pixels. */
  lemma {:induction false} IntendedWeightSymmetric(spatial: real -> real, tonal: real -> real, di: int, dj: int, a: int, b: int)
    ensures IntendedWeight(spatial, tonal, di, dj, a, b) == IntendedWeight(spatial, tonal, -di, -dj, b, a)
  {
    assert (-di) * (-di) == di * di && (-dj) * (-dj) == dj * dj && (b - a) * (b - a) == (a - b) * (a - b);
  }

  // ---------------------------------------------------------------------------
  // The edge weight under NumPy 1.x scalar promotion.

  /** The numerator of the intensity exponent under NumPy 1.x, where a uint8 scalar
      raised to a Python int promotes to int64: only the subtraction of the two uint8
      pixels wraps, and the square and its negation are taken exactly. */
  function LegacyRangeNumerator(a: int, b: int): (n: int)
    ensures n <= 0 && (n == 0 <==> (a - b) % 256 == 0)
  {
    SquareSign((a - b) % 256);
    -(((a - b) % 256) * ((a - b) % 256))
  }

  function LegacyWeight(spatial: real -> real, tonal: real -> real, di: int, dj: int, a: int, b: int): real
  {
    OffsetWeight(spatial, tonal, di, dj, LegacyRangeNumerator(a, b))
  }

  /** Under NumPy 1.x every weight lies in (0, 1], but the weight is not symmetric:
      intensities 1 and 0 give the numerator -1 one way and -(255 * 255) the other,
      so W would not be symmetric. */
  lemma {:induction false} LegacyWeightAsymmetric(spatial: real -> real, tonal: real -> real, di: int, dj: int, a: int, b: int)
    requires ExpLike(spatial) && ExpLike(tonal)
    ensures 0.0 < LegacyWeight(spatial, tonal, di, dj, a, b) <= 1.0
    ensures LegacyRangeNumerator(1, 0) == -1 && LegacyRangeNumerator(0, 1) == -65025
    ensures LegacyWeight(spatial, tonal, 0, -1, 0, 1) < LegacyWeight(spatial, tonal, 0, 1, 1, 0)
  {
    OffsetWeightInUnit(spatial, tonal, di, dj, LegacyRangeNumerator(a, b));
    LegacyNumerators();
    OffsetWeightReversed(spatial, tonal, 0, 1, -65025);
    OffsetWeightStrict(spatial, tonal, 0, 1, -65025, -1);
  }

  lemma {:induction false} LegacyNumerators()
    ensures LegacyRangeNumerator(1, 0) == -1 && LegacyRangeNumerator(0, 1) == -65025
  {
    assert (0 - 1) % 256 == 255 && 255 * 255 == 65025;
  }

  /** The spatial factor depends only on the squared offset. */
  lemma {:induction false} OffsetWeightReversed(spatial: real -> real, tonal: real -> real, di: int, dj: int, n: int)
    ensures OffsetWeight(spatial, tonal, di, dj, n) == OffsetWeight(spatial, tonal, -di, -dj, n)
  {
    assert SpatialDiff((di, dj)) == SpatialDiff((-di, -dj));
  }

  /** At a fixed offset a larger tonal numerator gives a strictly larger weight. */
  lemma {:induction false} OffsetWeightStrict(spatial: real -> real, tonal: real -> real, di: int, dj: int, m: int, n: int)
    requires ExpLike(spatial) && ExpLike(tonal) && m < n
    ensures OffsetWeight(spatial, tonal, di, dj, m) < OffsetWeight(spatial, tonal, di, dj, n)
  {
    var x := spatial(-(SpatialDiff((di, dj)) as real));
    assert 0.0 < x;
    assert tonal(m as real) < tonal(n as real);
    MulStrict(x, tonal(m as real), tonal(n as real));
    assert OffsetWeight(spatial, tonal, di, dj, m) == tonal(m as real) * x;
    assert OffsetWeight(spatial, tonal, di, dj, n) == tonal(n as real) * x;
  }

  // ---------------------------------------------------------------------------
  // The scan and the builder.

  /** The weight the builder computes between pixels (i, j) and (ni, nj) of the
      flattened channel `flat` of an image w pixels wide (0 off the image). */
  function PairWeight(flat: seq<int>, w: nat, spatial: real -> real, tonal: real -> real,
                      i: int, j: int, ni: int, nj: int): real
  {
    if 0 <= i * w + j < |flat| && 0 <= ni * w + nj < |flat|
    then Weight(spatial, tonal, ni - i, nj - j, flat[i * w + j], flat[ni * w + nj])
    else 0.0
  }

  /** The neighbour scan `compute_bilateral_weights` performs over the flattened channel
      `flat` of an h by w image: every window offset, every in-bounds neighbour kept. */
  function BilateralScan(flat: seq<int>, h: nat, w: nat, spatial: real -> real, tonal: real -> real): Scan
  {
    Scan(h, w, Window(),
         (i: int, j: int, ni: int, nj: int) => PairWeight(flat, w, spatial, tonal, i, j, ni, nj),
         (x: real) => true)
  }

  /** The scan's weight between two pixels reads their intensities at their flat
      indices. */
  lemma {:induction false} ScanWeightAt(flat: seq<int>, h: nat, w: nat, spatial: real -> real, tonal: real -> real,
                                        i: nat, j: nat, ni: nat, nj: nat)
    requires |flat| == h * w
    requires InBounds(h, w, i, j) && InBounds(h, w, ni, nj)
    ensures PixelIndex(w, i, j) < h * w && PixelIndex(w, ni, nj) < h * w
    ensures BilateralScan(flat, h, w, spatial, tonal).wt(i, j, ni, nj) ==
      Weight(spatial, tonal, ni - i, nj - j, flat[PixelIndex(w, i, j)], flat[PixelIndex(w, ni, nj)])
  {
    PixelIndexBijection(h, w, i, j);
    PixelIndexBijection(h, w, ni, nj);
  }

  /** The edge the bilateral scan emits from (i, j) for offset (di, dj): one triplet to
      the neighbour with the weight as written when the neighbour is in bounds, none
      otherwise. */
  lemma {:induction false} BilateralEdgeTo(flat: seq<int>, h: nat, w: nat, spatial: real -> real, tonal: real -> real,
                                           i: nat, j: nat, di: int, dj: int)
    requires |flat| == h * w && InBounds(h, w, i, j)
    ensures PixelIndex(w, i, j) < |flat|
    ensures !InBounds(h, w, i + di, j + dj) ==> EdgeTo(BilateralScan(flat, h, w, spatial, tonal), i, j, (di, dj)) == []
    ensures InBounds(h, w, i + di, j + dj) ==>
      PixelIndex(w, i + di, j + dj) < |flat| &&
      EdgeTo(BilateralScan(flat, h, w, spatial, tonal), i, j, (di, dj)) ==
        [Edge(PixelIndex(w, i, j), PixelIndex(w, i + di, j + dj),
              Weight(spatial, tonal, di, dj, flat[PixelIndex(w, i, j)], flat[PixelIndex(w, i + di, j + dj)]))]
  {
    PixelIndexBijection(h, w, i, j);
    if InBounds(h, w, i + di, j + dj) {
      ScanWeightAt(flat, h, w, spatial, tonal, i, j, i + di, j + dj);
    }
  }

  /** Pass k = 3 * (di + 1) + (dj + 1) of the inner loops appends the edge for window
      offset (di, dj). */
  lemma {:induction false} WindowStep(s: Scan, i: nat, j: nat, di: int, dj: int, k: nat)
    requires s.offs == Window() && -1 <= di <= 1 && -1 <= dj <= 1
    requires k == 3 * (di + 1) + (dj + 1)
    ensures k < |s.offs| && PixelEdges(s, i, j, k + 1) == PixelEdges(s, i, j, k) + EdgeTo(s, i, j, (di, dj))
  {
    WindowAt(di, dj);
  }

  /** The body of the inner loops of `compute_bilateral_weights` for pixel (i, j) and
      offset (di, dj): append one triplet with the weight as written when the neighbour
      is in bounds. */
  method VisitNeighbour(flat: seq<int>, h: nat, w: nat, spatial: real -> real, tonal: real -> real,
                        i: nat, j: nat, di: int, dj: int, edges: seq<Edge>)
    returns (extended: seq<Edge>)
    requires |flat| == h * w && InBounds(h, w, i, j)
    ensures extended == edges + EdgeTo(BilateralScan(flat, h, w, spatial, tonal), i, j, (di, dj))
  {
    BilateralEdgeTo(flat, h, w, spatial, tonal, i, j, di, dj);
    var p := PixelIndex(w, i, j);
    var ni, nj := i + di, j + dj;
    extended := edges;
    if 0 <= ni < h && 0 <= nj < w {
      var q := PixelIndex(w, ni, nj);
      var weight := Weight(spatial, tonal, di, dj, flat[p], flat[q]);
      extended := extended + [Edge(p, q, weight)];
    }
  }

  /** The two inner loops of `compute_bilateral_weights` for pixel (i, j): one triplet
      per in-bounds neighbour of the 3 by 3 window, in window order. */
  method WindowTriplets(flat: seq<int>, h: nat, w: nat, spatial: real -> real, tonal: real -> real,
                        i: nat, j: nat)
    returns (edges: seq<Edge>)
    requires |flat| == h * w && InBounds(h, w, i, j)
    ensures edges == PixelEdges(BilateralScan(flat, h, w, spatial, tonal), i, j, |Window()|)
  {
    ghost var s := BilateralScan(flat, h, w, spatial, tonal);
    edges := [];
    ghost var k := 0;
    for di := -1 to 2
      invariant k == 3 * (di + 1)
      invariant edges == PixelEdges(s, i, j, k)
    {
      for dj := -1 to 2
        invariant k == 3 * (di + 1) + (dj + 1)
        invariant edges == PixelEdges(s, i, j, k)
      {
        WindowStep(s, i, j, di, dj, k);
        edges := VisitNeighbour(flat, h, w, spatial, tonal, i, j, di, dj, edges);
        k := k + 1;
      }
    }
  }

  /** The loop over j of `compute_bilateral_weights` for row i: the triplets of the row's
      pixels, in order, follow those of the rows above. */
  method RowTriplets(flat: seq<int>, h: nat, w: nat, spatial: real -> real, tonal: real -> real,
                     i: nat, triplets: seq<Edge>)
    returns (extended: seq<Edge>)
    requires |flat| == h * w && i < h
    requires 0 < w ==> triplets == ScanEdges(BilateralScan(flat, h, w, spatial, tonal), PixelIndex(w, i, 0))
    ensures 0 < w ==> extended == ScanEdges(BilateralScan(flat, h, w, spatial, tonal), PixelIndex(w, i + 1, 0))
    ensures w == 0 ==> extended == triplets
  {
    ghost var s := BilateralScan(flat, h, w, spatial, tonal);
    extended := triplets;
    ghost var m := PixelIndex(w, i, 0);
    for j := 0 to w
      invariant m == PixelIndex(w, i, j)
      invariant 0 < w ==> extended == ScanEdges(s, m)
      invariant w == 0 ==> extended == triplets
    {
      var edges := WindowTriplets(flat, h, w, spatial, tonal, i, j);
      extended := extended + edges;
      ScanEdgesNext(s, i, j);
      m := m + 1;
    }
    NextRow(w, i);
  }

  /** The four loops of `compute_bilateral_weights`: the triplets are exactly those of
      the bilateral scan of the flattened image, in loop order. */
  method CollectTriplets(flat: seq<int>, h: nat, w: nat, spatial: real -> real, tonal: real -> real)
    returns (triplets: seq<Edge>)
    requires |flat| == h * w
    ensures triplets == AllEdges(BilateralScan(flat, h, w, spatial, tonal))
  {
    ghost var s := BilateralScan(flat, h, w, spatial, tonal);
    triplets := [];
    for i := 0 to h
      invariant 0 < w ==> triplets == ScanEdges(s, PixelIndex(w, i, 0))
      invariant w == 0 ==> triplets == []
    {
      triplets := RowTriplets(flat, h, w, spatial, tonal, i, triplets);
    }
  }

  /** `W.sum(axis=1)`: the degree of each of the n pixels is its row sum in W. */
  method RowSums(triplets: seq<Edge>, n: nat) returns (degree: seq<real>)
    ensures |degree| == n && forall p :: 0 <= p < n ==> degree[p] == RowSum(triplets, p)
  {
    degree := seq(n, p requires 0 <= p => RowSum(triplets, p));
  }

  /** `compute_bilateral_weights`: W holds exactly the triplets of the bilateral scan of
      the flattened image, and D the row sums of W. */
  method ComputeBilateralWeights(image: seq<seq<int>>, h: nat, w: nat, spatial: real -> real, tonal: real -> real)
    returns (triplets: seq<Edge>, degree: seq<real>)
    requires IsGrid(image, h, w)
    ensures |Flatten(image)| == h * w
    ensures triplets == AllEdges(BilateralScan(Flatten(image), h, w, spatial, tonal))
    ensures |degree| == h * w && forall p :: 0 <= p < h * w ==> degree[p] == RowSum(triplets, p)
  {
    FlattenLength(image, h, w);
    var flat := Flatten(image);
    triplets := CollectTriplets(flat, h, w, spatial, tonal);
    degree := RowSums(triplets, h * w);
  }

  // ---------------------------------------------------------------------------
  // What the builder's triplets make of W and D.

  /** The offset from (i, j) to (ni, nj) is in the window exactly when the reverse
      offset is. */
  lemma {:induction false} WindowSymmetricAt(i: int, j: int, ni: int, nj: int)
    ensures (ni - i, nj - j) in Window() <==> (i - ni, j - nj) in Window()
  {
    WindowMembers((ni - i, nj - j));
    WindowMembers((i - ni, j - nj));
  }

  /** The weight as written is symmetric: both kernels depend only on the squared offset
      and the wrapped squared difference. */
  lemma {:induction false} BilateralSymmetricWeight(flat: seq<int>, h: nat, w: nat, spatial: real -> real, tonal: real -> real)
    requires |flat| == h * w
    ensures SymmetricWeight(BilateralScan(flat, h, w, spatial, tonal))
  {
    forall i, j, ni, nj | InBounds(h, w, i, j) && InBounds(h, w, ni, nj)
      ensures BilateralScan(flat, h, w, spatial, tonal).wt(i, j, ni, nj) == BilateralScan(flat, h, w, spatial, tonal).wt(ni, nj, i, j)
    {
      PairWeightSymmetric(flat, h, w, spatial, tonal, i, j, ni, nj);
    }
  }

  lemma {:induction false} PairWeightSymmetric(flat: seq<int>, h: nat, w: nat, spatial: real -> real, tonal: real -> real,
                                               i: nat, j: nat, ni: nat, nj: nat)
    requires |flat| == h * w
    requires InBounds(h, w, i, j) && InBounds(h, w, ni, nj)
    ensures BilateralScan(flat, h, w, spatial, tonal).wt(i, j, ni, nj) == BilateralScan(flat, h, w, spatial, tonal).wt(ni, nj, i, j)
  {
    ScanWeightAt(flat, h, w, spatial, tonal, i, j, ni, nj);
    ScanWeightAt(flat, h, w, spatial, tonal, ni, nj, i, j);
    WeightSymmetric(spatial, tonal, ni - i, nj - j, flat[PixelIndex(w, i, j)], flat[PixelIndex(w, ni, nj)]);
  }

  /** W[p, q] for two pixels: one triplet when q lies within one row and one column of p
      (p itself included), carrying the bilateral weight, and nothing otherwise. */
  lemma {:induction false} BilateralEntries(flat: seq<int>, h: nat, w: nat, spatial: real -> real, tonal: real -> real,
                                            i: nat, j: nat, ni: nat, nj: nat)
    requires |flat| == h * w
    requires InBounds(h, w, i, j) && InBounds(h, w, ni, nj)
    ensures PixelIndex(w, i, j) < h * w && PixelIndex(w, ni, nj) < h * w
    ensures var es, p, q := AllEdges(BilateralScan(flat, h, w, spatial, tonal)), PixelIndex(w, i, j), PixelIndex(w, ni, nj);
      var near := -1 <= ni - i <= 1 && -1 <= nj - j <= 1;
      Count(es, p, q) == (if near then 1 else 0) &&
      Entry(es, p, q) == if near then Weight(spatial, tonal, ni - i, nj - j, flat[p], flat[q]) else 0.0
  {
    WindowDistinct();
    WindowMembers((ni - i, nj - j));
    ScanWeightAt(flat, h, w, spatial, tonal, i, j, ni, nj);
    MatrixEntry(BilateralScan(flat, h, w, spatial, tonal), i, j, ni, nj);
  }

  /** Every pixel has a self-loop of weight exactly 1. */
  lemma {:induction false} SelfLoopWeight(flat: seq<int>, h: nat, w: nat, spatial: real -> real, tonal: real -> real,
                                          i: nat, j: nat)
    requires ExpLike(spatial) && ExpLike(tonal) && |flat| == h * w && InBounds(h, w, i, j)
    ensures Entry(AllEdges(BilateralScan(flat, h, w, spatial, tonal)), PixelIndex(w, i, j), PixelIndex(w, i, j)) == 1.0
  {
    BilateralEntries(flat, h, w, spatial, tonal, i, j, i, j);
    var a := flat[PixelIndex(w, i, j)];
    WeightPositive(spatial, tonal, 0, 0, a, a);
  }

  /** Every stored value is positive. */
  lemma {:induction false} BilateralPositive(flat: seq<int>, h: nat, w: nat, spatial: real -> real, tonal: real -> real)
    requires ExpLike(spatial) && ExpLike(tonal) && |flat| == h * w
    ensures PositiveWeights(AllEdges(BilateralScan(flat, h, w, spatial, tonal)))
  {
    var s := BilateralScan(flat, h, w, spatial, tonal);
    forall i, j, ni, nj | InBounds(h, w, i, j) && InBounds(h, w, ni, nj)
      ensures 0.0 < s.wt(i, j, ni, nj)
    {
      ScanWeightAt(flat, h, w, spatial, tonal, i, j, ni, nj);
      WeightPositive(spatial, tonal, ni - i, nj - j, flat[PixelIndex(w, i, j)], flat[PixelIndex(w, ni, nj)]);
    }
    AllPositive(s);
  }

  /** Every degree D[p] is at least 1, so the diagonal solves never divide by zero. */
  lemma {:induction false} DegreeAtLeastOne(flat: seq<int>, h: nat, w: nat, spatial: real -> real, tonal: real -> real,
                                            i: nat, j: nat)
    requires ExpLike(spatial) && ExpLike(tonal) && |flat| == h * w && InBounds(h, w, i, j)
    ensures 1.0 <= RowSum(AllEdges(BilateralScan(flat, h, w, spatial, tonal)), PixelIndex(w, i, j))
  {
    var es := AllEdges(BilateralScan(flat, h, w, spatial, tonal));
    BilateralPositive(flat, h, w, spatial, tonal);
    SelfLoopWeight(flat, h, w, spatial, tonal, i, j);
    EntryAtMostRowSum(es, PixelIndex(w, i, j), PixelIndex(w, i, j));
  }

  /** W is symmetric: (p, q) is stored iff (q, p) is, with the same value. */
  lemma {:induction false} BilateralMatrixSymmetric(flat: seq<int>, h: nat, w: nat, spatial: real -> real, tonal: real -> real,
                                                    i: nat, j: nat, ni: nat, nj: nat)
    requires |flat| == h * w
    requires InBounds(h, w, i, j) && InBounds(h, w, ni, nj)
    ensures var es, p, q := AllEdges(BilateralScan(flat, h, w, spatial, tonal)), PixelIndex(w, i, j), PixelIndex(w, ni, nj);
      Count(es, p, q) == Count(es, q, p) && Entry(es, p, q) == Entry(es, q, p)
  {
    WindowDistinct();
    WindowSymmetricAt(i, j, ni, nj);
    BilateralSymmetricWeight(flat, h, w, spatial, tonal);
    MatrixSymmetric(BilateralScan(flat, h, w, spatial, tonal), i, j, ni, nj);
  }

  /** D is the row sum of W, so L = D - W maps every constant vector to zero. */
  lemma {:induction false} LaplacianOfConstant(flat: seq<int>, h: nat, w: nat, spatial: real -> real, tonal: real -> real,
                                               v: seq<real>, c: real, p: nat)
    requires |flat| == h * w
    requires |v| == h * w && Within(v, c, c) && p < h * w
    ensures var es := AllEdges(BilateralScan(flat, h, w, spatial, tonal));
      RowSum(es, p) * v[p] - RowDot(es, p, v) == 0.0
  {
    BilateralTargets(flat, h, w, spatial, tonal);
    ConstantInKernel(AllEdges(BilateralScan(flat, h, w, spatial, tonal)), p, v, c);
  }

  /** Every column index of the bilateral triplets lies below h w. */
  lemma {:induction false} BilateralTargets(flat: seq<int>, h: nat, w: nat, spatial: real -> real, tonal: real -> real)
    ensures TargetsBelow(AllEdges(BilateralScan(flat, h, w, spatial, tonal)), h * w)
  {
    var s := BilateralScan(flat, h, w, spatial, tonal);
    assert s.h == h && s.w == w;
    AllTargets(s);
  }
}
