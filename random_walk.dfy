/** Random-walk smoothing of a colour image, as both the basic and the advanced script
    run it: a 4-neighbour affinity graph whose weight is a clamped colour kernel times
    a spatial kernel, kept above 1e-5; passes that replace every pixel by the
    row-normalised weighted average of its neighbours, blend it with the previous
    values and clip to [0, 255]; weights rebuilt from the averaged image every
    `update_interval` passes; and an early exit once a pass changes little. */
module RandomWalk {
  import opened Numeric
  import opened Grid
  import opened PixelGraph

  // ---------------------------------------------------------------------------
  // The affinity graph.

  /** The two scripts differ only in the bandwidths they rebuild the weights with. */
  datatype Variant = Basic | Advanced

  /** sigma passed to the rebuild: 10 in the basic script, 8 in the advanced one. */
  function ReweightSigma(v: Variant): real
  {
    if v.Basic? then 10.0 else 8.0
  }

  /** alpha passed to the rebuild: 1.5 in the basic script, 1.2 in the advanced one. */
  function ReweightAlpha(v: Variant): real
  {
    if v.Basic? then 1.5 else 1.2
  }

  /** A weight is stored only when it exceeds 1e-5. */
  const MinWeight: real := 0.00001

  /** `compute_pixel_weight(diff, di, dj, sigma, alpha)`: the colour factor
      exp(clip(-|diff|^2 / (2 sigma^2), -100, 0)) times the spatial factor
      exp(-(di^2 + dj^2) / (2 alpha^2)). */
  function PixelAffinity(exp: real -> real, diff: seq<real>, di: int, dj: int, sigma: real, alpha: real): real
    requires sigma != 0.0 && alpha != 0.0
  {
    SpreadPositive(sigma);
    SpreadPositive(alpha);
    exp(Clip(-Dot(diff, diff) / Spread(sigma), -100.0, 0.0)) *
    exp(-(SpatialDiff((di, dj)) as real) / Spread(alpha))
  }

  /** Both factors lie in (0, 1], so the weight does too: the colour exponent is clamped
      to [-100, 0] and the spatial exponent is never positive. */
  lemma {:induction false} AffinityInUnit(exp: real -> real, diff: seq<real>, di: int, dj: int, sigma: real, alpha: real)
    requires ExpLike(exp) && sigma != 0.0 && alpha != 0.0
    ensures 0.0 < PixelAffinity(exp, diff, di, dj, sigma, alpha) <= 1.0
  {
    SpatialExponentNonPositive(di, dj, alpha);
    SpreadPositive(sigma);
    var colour := Clip(-Dot(diff, diff) / Spread(sigma), -100.0, 0.0);
    var spatial := -(SpatialDiff((di, dj)) as real) / Spread(alpha);
    FactorsInUnit(exp, exp, colour, spatial);
    assert PixelAffinity(exp, diff, di, dj, sigma, alpha) == exp(colour) * exp(spatial);
  }

  /** `np.sum(diff ** 2)` for a uint8 `diff`: each channel's difference and its square
      wrap modulo 256 before the sum. */
  function WrappedSqSum(a: seq<int>, b: seq<int>): (n: nat)
    requires |a| == |b|
    ensures a == b ==> n == 0
  {
    if a == [] then 0 else WrappedSqSum(a[..|a| - 1], b[..|b| - 1]) + WrapSq(a[|a| - 1], b[|b| - 1])
  }

  /** Unary minus on a uint64: it wraps modulo 2^64. */
  function NegU64(n: int): (r: int)
    ensures 0 <= r < 0x1_0000_0000_0000_0000
    ensures n % 0x1_0000_0000_0000_0000 == 0 <==> r == 0
  {
    (-n) % 0x1_0000_0000_0000_0000
  }

  /** `compute_pixel_weight` when `diff` is the difference of two uint8 pixels a and b,
      as in the weights built from the raw image before the first pass: `np.sum`
      returns a uint64, so `-diff_norm` wraps to a non-negative value, and the clip to
      [-100, 0] then sends the colour exponent to 0. */
  function ByteAffinity(exp: real -> real, a: seq<int>, b: seq<int>, di: int, dj: int, sigma: real, alpha: real): real
    requires |a| == |b| && sigma != 0.0 && alpha != 0.0
  {
    SpreadPositive(sigma);
    SpreadPositive(alpha);
    exp(Clip(NegU64(WrappedSqSum(a, b)) as real / Spread(sigma), -100.0, 0.0)) *
    exp(-(SpatialDiff((di, dj)) as real) / Spread(alpha))
  }

  /** On uint8 pixels the colour factor is always 1: the weight is the spatial factor
      alone, the same for every pair of colours, and equal to the affinity of two
      identical pixels. */
  lemma {:induction false} ByteAffinitySpatialOnly(exp: real -> real, a: seq<int>, b: seq<int>, di: int, dj: int, sigma: real, alpha: real)
    requires ExpLike(exp) && |a| == |b| && sigma != 0.0 && alpha != 0.0
    ensures 0.0 < Spread(alpha) && ByteAffinity(exp, a, b, di, dj, sigma, alpha) == exp(-(SpatialDiff((di, dj)) as real) / Spread(alpha))
    ensures ByteAffinity(exp, a, b, di, dj, sigma, alpha) == ByteAffinity(exp, a, a, di, dj, sigma, alpha)
  {
    SpreadPositive(sigma);
    SpreadPositive(alpha);
    ByteColourFactor(exp, a, b, sigma);
    ByteColourFactor(exp, a, a, sigma);
  }

  lemma {:induction false} ByteColourFactor(exp: real -> real, a: seq<int>, b: seq<int>, sigma: real)
    requires ExpLike(exp) && |a| == |b| && sigma != 0.0
    ensures 0.0 < Spread(sigma) && exp(Clip(NegU64(WrappedSqSum(a, b)) as real / Spread(sigma), -100.0, 0.0)) == 1.0
  {
    SpreadPositive(sigma);
    var x := NegU64(WrappedSqSum(a, b)) as real;
    assert 0.0 <= x / Spread(sigma) by { DivSign(x, Spread(sigma)); }
    assert Clip(x / Spread(sigma), -100.0, 0.0) == 0.0;
  }

  /** The weight is symmetric: swapping the two pixels negates both the colour
      difference and the offset. */
  lemma {:induction false} AffinitySymmetric(exp: real -> real, a: seq<real>, b: seq<real>, di: int, dj: int, sigma: real, alpha: real)
    requires |a| == |b| && sigma != 0.0 && alpha != 0.0
    ensures PixelAffinity(exp, Sub(a, b), di, dj, sigma, alpha) == PixelAffinity(exp, Sub(b, a), -di, -dj, sigma, alpha)
  {
    SquaredNormSwap(a, b);
    assert SpatialDiff((di, dj)) == SpatialDiff((-di, -dj));
  }

  /** The builder's weight between pixels (i, j) and (ni, nj) of the flat image. */
  function PairAffinity(flat: seq<seq<real>>, w: nat, exp: real -> real, sigma: real, alpha: real,
                        i: int, j: int, ni: int, nj: int): real
  {
    if 0 <= i * w + j < |flat| && 0 <= ni * w + nj < |flat| && |flat[i * w + j]| == |flat[ni * w + nj]| &&
       sigma != 0.0 && alpha != 0.0
    then PixelAffinity(exp, Sub(flat[i * w + j], flat[ni * w + nj]), ni - i, nj - j, sigma, alpha)
    else 0.0
  }

  /** The scan `compute_weight_matrix_color_enhanced` performs over the flattened image:
      the four axis neighbours, kept when the weight exceeds 1e-5. */
  function AffinityScan(flat: seq<seq<real>>, h: nat, w: nat, exp: real -> real, sigma: real, alpha: real): Scan
  {
    Scan(h, w, AxisOffsets(),
         (i: int, j: int, ni: int, nj: int) => PairAffinity(flat, w, exp, sigma, alpha, i, j, ni, nj),
         (x: real) => x > MinWeight)
  }

  lemma {:induction false} ScanAffinityAt(flat: seq<seq<real>>, h: nat, w: nat, exp: real -> real, sigma: real, alpha: real,
                                          i: nat, j: nat, ni: nat, nj: nat)
    requires Pixels(flat, h * w, 3) && sigma != 0.0 && alpha != 0.0
    requires InBounds(h, w, i, j) && InBounds(h, w, ni, nj)
    ensures PixelIndex(w, i, j) < h * w && PixelIndex(w, ni, nj) < h * w
    ensures AffinityScan(flat, h, w, exp, sigma, alpha).wt(i, j, ni, nj) ==
      PixelAffinity(exp, Sub(flat[PixelIndex(w, i, j)], flat[PixelIndex(w, ni, nj)]), ni - i, nj - j, sigma, alpha)
  {
    PixelIndexBijection(h, w, i, j);
    PixelIndexBijection(h, w, ni, nj);
  }

  /** `compute_weight_matrix_color_enhanced(image, sigma, alpha)`: the triplets of the
      affinity scan of the flattened image, in loop order. */
  method ComputeWeightMatrix(image: seq<seq<seq<real>>>, h: nat, w: nat, exp: real -> real, sigma: real, alpha: real)
    returns (es: seq<Edge>)
    requires IsImage(image, h, w, 3) && sigma != 0.0 && alpha != 0.0
    ensures es == AllEdges(AffinityScan(Flatten(image), h, w, exp, sigma, alpha))
  {
    var flat := Flatten(image);
    es := VisitAll(AffinityScan(flat, h, w, exp, sigma, alpha));
  }

  /** W[p, q] for two pixels: one triplet exactly when q is an axis neighbour of p whose
      weight exceeds 1e-5, carrying that weight, and nothing otherwise; in particular no
      pixel is linked to itself. */
  lemma {:induction false} AffinityEntries(flat: seq<seq<real>>, h: nat, w: nat, exp: real -> real, sigma: real, alpha: real,
                                           i: nat, j: nat, ni: nat, nj: nat)
    requires Pixels(flat, h * w, 3) && sigma != 0.0 && alpha != 0.0
    requires InBounds(h, w, i, j) && InBounds(h, w, ni, nj)
    ensures PixelIndex(w, i, j) < h * w && PixelIndex(w, ni, nj) < h * w
    ensures var es, p, q := AllEdges(AffinityScan(flat, h, w, exp, sigma, alpha)), PixelIndex(w, i, j), PixelIndex(w, ni, nj);
      var wt := PixelAffinity(exp, Sub(flat[p], flat[q]), ni - i, nj - j, sigma, alpha);
      var stored := AxisNeighbour(i, j, ni, nj) && wt > MinWeight;
      Count(es, p, q) == (if stored then 1 else 0) && Entry(es, p, q) == (if stored then wt else 0.0)
  {
    AxisDistinct();
    AxisMembers(i, j, ni, nj);
    ScanAffinityAt(flat, h, w, exp, sigma, alpha, i, j, ni, nj);
    MatrixEntry(AffinityScan(flat, h, w, exp, sigma, alpha), i, j, ni, nj);
  }

  /** W is symmetric: (p, q) is stored iff (q, p) is, with the same value. */
  lemma {:induction false} AffinityMatrixSymmetric(flat: seq<seq<real>>, h: nat, w: nat, exp: real -> real, sigma: real, alpha: real,
                                                   i: nat, j: nat, ni: nat, nj: nat)
    requires Pixels(flat, h * w, 3) && sigma != 0.0 && alpha != 0.0
    requires InBounds(h, w, i, j) && InBounds(h, w, ni, nj)
    ensures var es, p, q := AllEdges(AffinityScan(flat, h, w, exp, sigma, alpha)), PixelIndex(w, i, j), PixelIndex(w, ni, nj);
      Count(es, p, q) == Count(es, q, p) && Entry(es, p, q) == Entry(es, q, p)
  {
    var s := AffinityScan(flat, h, w, exp, sigma, alpha);
    AxisDistinct();
    AxisMembers(i, j, ni, nj);
    AffinityScanSymmetric(flat, h, w, exp, sigma, alpha);
    MatrixSymmetric(s, i, j, ni, nj);
  }

  /** The affinity of a pixel pair does not depend on which of the two comes first. */
  lemma {:induction false} AffinityScanSymmetric(flat: seq<seq<real>>, h: nat, w: nat, exp: real -> real, sigma: real, alpha: real)
    requires Pixels(flat, h * w, 3) && sigma != 0.0 && alpha != 0.0
    ensures SymmetricWeight(AffinityScan(flat, h, w, exp, sigma, alpha))
  {
    var s := AffinityScan(flat, h, w, exp, sigma, alpha);
    forall a, b, na, nb | InBounds(h, w, a, b) && InBounds(h, w, na, nb)
      ensures s.wt(a, b, na, nb) == s.wt(na, nb, a, b)
    {
      ScanAffinityAt(flat, h, w, exp, sigma, alpha, a, b, na, nb);
      ScanAffinityAt(flat, h, w, exp, sigma, alpha, na, nb, a, b);
      AffinitySymmetric(exp, flat[PixelIndex(w, a, b)], flat[PixelIndex(w, na, nb)], na - a, nb - b, sigma, alpha);
    }
  }

  /** Each row of W holds at most four triplets. */
  lemma {:induction false} AffinityRowLength(flat: seq<seq<real>>, h: nat, w: nat, exp: real -> real, sigma: real, alpha: real,
                                             i: nat, j: nat)
    requires InBounds(h, w, i, j)
    ensures RowLength(AllEdges(AffinityScan(flat, h, w, exp, sigma, alpha)), PixelIndex(w, i, j)) <= 4
  {
    RowShape(AffinityScan(flat, h, w, exp, sigma, alpha), i, j);
  }

  /** Every stored weight is positive, and every column lies inside the image. */
  lemma {:induction false} AffinityPositive(flat: seq<seq<real>>, h: nat, w: nat, exp: real -> real, sigma: real, alpha: real)
    requires ExpLike(exp) && Pixels(flat, h * w, 3) && sigma != 0.0 && alpha != 0.0
    ensures var es := AllEdges(AffinityScan(flat, h, w, exp, sigma, alpha));
      PositiveWeights(es) && NonNegativeWeights(es) && TargetsBelow(es, h * w)
  {
    var s := AffinityScan(flat, h, w, exp, sigma, alpha);
    forall a, b, na, nb | InBounds(h, w, a, b) && InBounds(h, w, na, nb)
      ensures 0.0 < s.wt(a, b, na, nb)
    {
      ScanAffinityAt(flat, h, w, exp, sigma, alpha, a, b, na, nb);
      AffinityInUnit(exp, Sub(flat[PixelIndex(w, a, b)], flat[PixelIndex(w, na, nb)]), na - a, nb - b, sigma, alpha);
    }
    AllPositive(s);
    AllTargets(s);
  }

  // ---------------------------------------------------------------------------
  // One pass of `random_walk_denoising_color_enhanced`.

  /** `weight_sum[p]` after `weight_sum[weight_sum == 0] = 1e-10`. */
  function Divisor(es: seq<Edge>, p: nat): real
  {
    if RowSum(es, p) == 0.0 then 0.0000000001 else RowSum(es, p)
  }

  /** Channel c of the flat image, as a vector over the pixels. */
  function Column(flat: seq<seq<real>>, c: nat): (col: seq<real>)
    ensures |col| == |flat|
  {
    seq(|flat|, p requires 0 <= p < |flat| => if c < |flat[p]| then flat[p][c] else 0.0)
  }

  /** `new_image[p, c]`: row p of `weights.dot(flat_image)` over the row's divisor. */
  function AverageAt(es: seq<Edge>, flat: seq<seq<real>>, p: nat, c: nat): real
  {
    RowDot(es, p, Column(flat, c)) / Divisor(es, p)
  }

  /** `new_image = weights.dot(flat_image) / weight_sum[:, None]`: one value per pixel and
      channel. */
  function Averaged(es: seq<Edge>, flat: seq<seq<real>>): (avg: seq<seq<real>>)
    ensures SameShape(avg, flat)
  {
    seq(|flat|, p requires 0 <= p < |flat| => seq(|flat[p]|, c requires 0 <= c < |flat[p]| => AverageAt(es, flat, p, c)))
  }

  /** a and b hold as many pixels, each with as many channels. */
  ghost predicate SameShape(a: seq<seq<real>>, b: seq<seq<real>>)
  {
    |a| == |b| && forall p :: 0 <= p < |a| ==> |a[p]| == |b[p]|
  }

  /** Every pixel value lies in [0, 255]. */
  ghost predicate InRange(flat: seq<seq<real>>)
  {
    forall p :: 0 <= p < |flat| ==> Within(flat[p], 0.0, 255.0)
  }

  /** A pixel with no weight in its row gets the divisor 1e-10 and the value 0. */
  lemma {:induction false} AverageIsolated(es: seq<Edge>, flat: seq<seq<real>>, p: nat, c: nat)
    requires NonNegativeWeights(es) && RowSum(es, p) == 0.0
    ensures Divisor(es, p) == 0.0000000001 && AverageAt(es, flat, p, c) == 0.0
  {
    RowDotZeroSum(es, p, Column(flat, c));
  }

  /** Any other pixel gets a weighted average of its neighbours: a value between the
      least and the greatest of them. */
  lemma {:induction false} AverageBetween(es: seq<Edge>, flat: seq<seq<real>>, p: nat, c: nat, lo: real, hi: real)
    requires NonNegativeWeights(es) && RowSum(es, p) != 0.0
    requires NeighboursWithin(es, p, Column(flat, c), lo, hi)
    ensures Divisor(es, p) == RowSum(es, p) && lo <= AverageAt(es, flat, p, c) <= hi
  {
    EntryAtMostRowSum(es, p, p);
    RowDotWithin(es, p, Column(flat, c), lo, hi);
    QuotientAtLeast(lo, RowDot(es, p, Column(flat, c)), RowSum(es, p));
    QuotientAtMost(hi, RowDot(es, p, Column(flat, c)), RowSum(es, p));
  }

  /** `np.clip(beta * new_image + (1 - beta) * flat_image, 0, 255)`. */
  function Blend(beta: real, avg: seq<seq<real>>, flat: seq<seq<real>>): (next: seq<seq<real>>)
    requires SameShape(avg, flat)
    ensures SameShape(next, flat) && InRange(next)
  {
    seq(|flat|, p requires 0 <= p < |flat| =>
      ClipVector(seq(|flat[p]|, c requires 0 <= c < |flat[p]| => beta * avg[p][c] + (1.0 - beta) * flat[p][c])))
  }

  /** An image the averaging leaves unchanged is also left unchanged by the blend, whatever
      beta is. */
  lemma {:induction false} BlendFixed(beta: real, flat: seq<seq<real>>)
    requires InRange(flat)
    ensures Blend(beta, flat, flat) == flat
  {
    var next := Blend(beta, flat, flat);
    forall p | 0 <= p < |flat|
      ensures next[p] == flat[p]
    {
      var mixed := seq(|flat[p]|, c requires 0 <= c < |flat[p]| => beta * flat[p][c] + (1.0 - beta) * flat[p][c]);
      forall c | 0 <= c < |flat[p]|
        ensures mixed[c] == flat[p][c]
      {
        Distribute(flat[p][c], beta, 1.0 - beta);
      }
      assert mixed == flat[p];
    }
  }

  /** `np.linalg.norm(a - b) ** 2`: the sum of the squared differences over every pixel
      and channel. */
  function SquaredGap(a: seq<seq<real>>, b: seq<seq<real>>): (g: real)
    requires SameShape(a, b)
    ensures 0.0 <= g
  {
    if a == [] then 0.0
    else
      var n := |a| - 1;
      SquaresNonNegative(Sub(a[n], b[n]));
      SquaredGap(a[..n], b[..n]) + Dot(Sub(a[n], b[n]), Sub(a[n], b[n]))
  }

  /** The early exit `np.linalg.norm(new_image - flat_image) < tol`, stated on the squared
      norm: it holds exactly when the square root of the squared gap is below tol. */
  lemma {:induction false} StopTestIsNormTest(sqrt: real -> real, a: seq<seq<real>>, b: seq<seq<real>>, tol: real)
    requires SqrtLike(sqrt) && SameShape(a, b)
    ensures RootBelow(SquaredGap(a, b), tol) <==> sqrt(SquaredGap(a, b)) < tol
  {
    RootBelowIsRootTest(sqrt, SquaredGap(a, b), tol);
  }

  // ---------------------------------------------------------------------------
  // The iteration.

  /** The fixed inputs of the loop: the image size, the kernel, the script, `tol`, `beta`
      and `update_interval`. */
  datatype WalkParams = WalkParams(h: nat, w: nat, exp: real -> real, variant: Variant, tol: real, beta: real, interval: int)

  /** The loop state: `flat_image`, `weights`, and whether the loop has broken out. */
  datatype Walk = Walk(flat: seq<seq<real>>, weights: seq<Edge>, stopped: bool)

  /** Pass `iterNum`: average, rebuild the weights from the average when
      `iterNum % update_interval == 0`, blend and clip, then test for the early exit. */
  function WalkPass(ps: WalkParams, iterNum: nat, st: Walk): (next: Walk)
    requires ps.interval != 0
    ensures SameShape(next.flat, st.flat) && InRange(next.flat)
  {
    var avg := Averaged(st.weights, st.flat);
    var weights :=
      if iterNum % ps.interval == 0
      then AllEdges(AffinityScan(avg, ps.h, ps.w, ps.exp, ReweightSigma(ps.variant), ReweightAlpha(ps.variant)))
      else st.weights;
    var flat := Blend(ps.beta, avg, st.flat);
    Walk(flat, weights, RootBelow(SquaredGap(avg, flat), ps.tol))
  }

  /** `for iter_num in range(n)` around a pass with an early `break`: the state after the
      first n iterations. A state that has broken out is never passed on again. */
  function Iterate(pass: (nat, Walk) -> Walk, start: Walk, n: nat): Walk
  {
    if n == 0 then start
    else
      var prev := Iterate(pass, start, n - 1);
      if prev.stopped then prev else pass(n - 1, prev)
  }

  /** Once the loop has broken out, later iterations leave the state as it is. */
  lemma {:induction false} IterateSettled(pass: (nat, Walk) -> Walk, start: Walk, m: nat, n: nat)
    requires m <= n && Iterate(pass, start, m).stopped
    ensures Iterate(pass, start, n) == Iterate(pass, start, m)
  {
    if m < n {
      IterateSettled(pass, start, m, n - 1);
    }
  }

  /** A property every pass preserves holds after any number of iterations. */
  lemma {:induction false} IterateInvariant(pass: (nat, Walk) -> Walk, inv: Walk -> bool, start: Walk, n: nat)
    requires inv(start) && forall i: nat, st: Walk :: inv(st) ==> inv(pass(i, st))
    ensures inv(Iterate(pass, start, n))
  {
    if 0 < n {
      IterateInvariant(pass, inv, start, n - 1);
    }
  }

  /** The state after the first n iterations of the random walk, from `flat0` and the
      caller's `weights0`. */
  function WalkRun(ps: WalkParams, flat0: seq<seq<real>>, weights0: seq<Edge>, n: nat): Walk
    requires ps.interval != 0
  {
    Iterate(Passes(ps), Walk(flat0, weights0, false), n)
  }

  /** The loop body as a function of the iteration number and the state. */
  function Passes(ps: WalkParams): (nat, Walk) -> Walk
    requires ps.interval != 0
  {
    (i: nat, st: Walk) => WalkPass(ps, i, st)
  }

  /** Every iteration keeps the image's shape; after at least one pass every value lies in
      [0, 255], and the loop can only have broken out after a pass. */
  lemma {:induction false} WalkRunShape(ps: WalkParams, flat0: seq<seq<real>>, weights0: seq<Edge>, n: nat)
    requires ps.interval != 0
    ensures var st := WalkRun(ps, flat0, weights0, n);
      SameShape(st.flat, flat0) && (0 < n ==> InRange(st.flat)) && (st.stopped ==> 0 < n)
  {
    if 0 < n {
      WalkRunShape(ps, flat0, weights0, n - 1);
    }
  }

  /** The weights after pass `iterNum`: unchanged unless `iterNum % update_interval == 0`,
      and otherwise the affinity graph of the averaged image with the script's bandwidths
      (sigma 10 and alpha 1.5 in the basic script, 8 and 1.2 in the advanced one). */
  lemma {:induction false} WalkPassWeights(ps: WalkParams, iterNum: nat, st: Walk, i: nat, j: nat, ni: nat, nj: nat)
    requires ps.interval != 0 && Pixels(st.flat, ps.h * ps.w, 3)
    requires InBounds(ps.h, ps.w, i, j) && InBounds(ps.h, ps.w, ni, nj)
    ensures iterNum % ps.interval != 0 ==> WalkPass(ps, iterNum, st).weights == st.weights
    ensures PixelIndex(ps.w, i, j) < ps.h * ps.w && PixelIndex(ps.w, ni, nj) < ps.h * ps.w
    ensures iterNum % ps.interval == 0 ==>
      var es, avg := WalkPass(ps, iterNum, st).weights, Averaged(st.weights, st.flat);
      var p, q := PixelIndex(ps.w, i, j), PixelIndex(ps.w, ni, nj);
      var wt := PixelAffinity(ps.exp, Sub(avg[p], avg[q]), ni - i, nj - j, ReweightSigma(ps.variant), ReweightAlpha(ps.variant));
      var stored := AxisNeighbour(i, j, ni, nj) && wt > MinWeight;
      Count(es, p, q) == (if stored then 1 else 0) && Entry(es, p, q) == (if stored then wt else 0.0)
  {
    var avg := Averaged(st.weights, st.flat);
    AffinityEntries(avg, ps.h, ps.w, ps.exp, ReweightSigma(ps.variant), ReweightAlpha(ps.variant), i, j, ni, nj);
  }

  /** One pass keeps the weights non-negative and pointing inside the image. */
  lemma {:induction false} WalkPassWeightsValid(ps: WalkParams, iterNum: nat, st: Walk)
    requires ps.interval != 0 && ExpLike(ps.exp) && Pixels(st.flat, ps.h * ps.w, 3)
    requires NonNegativeWeights(st.weights) && TargetsBelow(st.weights, ps.h * ps.w)
    ensures var es := WalkPass(ps, iterNum, st).weights;
      NonNegativeWeights(es) && TargetsBelow(es, ps.h * ps.w)
  {
    if iterNum % ps.interval == 0 {
      AffinityPositive(Averaged(st.weights, st.flat), ps.h, ps.w, ps.exp,
                       ReweightSigma(ps.variant), ReweightAlpha(ps.variant));
    }
  }

  /** Weights that are non-negative and point inside the image stay so at every pass, so
      every averaging step is a weighted average or an isolated zero. */
  lemma {:induction false} WalkWeightsValid(ps: WalkParams, flat0: seq<seq<real>>, weights0: seq<Edge>, n: nat)
    requires ps.interval != 0 && ExpLike(ps.exp) && Pixels(flat0, ps.h * ps.w, 3)
    requires NonNegativeWeights(weights0) && TargetsBelow(weights0, ps.h * ps.w)
    ensures var es := WalkRun(ps, flat0, weights0, n).weights;
      NonNegativeWeights(es) && TargetsBelow(es, ps.h * ps.w)
  {
    var valid := (st: Walk) => WalkValid(ps, st);
    forall i: nat, st: Walk | valid(st)
      ensures valid(Passes(ps)(i, st))
    {
      WalkPassWeightsValid(ps, i, st);
    }
    IterateInvariant(Passes(ps), valid, Walk(flat0, weights0, false), n);
  }

  /** The image has h w pixels of three channels, and the weights are non-negative and
      point inside the image. */
  ghost predicate WalkValid(ps: WalkParams, st: Walk)
  {
    Pixels(st.flat, ps.h * ps.w, 3) && NonNegativeWeights(st.weights) && TargetsBelow(st.weights, ps.h * ps.w)
  }

  // ---------------------------------------------------------------------------
  // The denoiser as a whole.

  /** `astype(np.uint8)` of values in [0, 255]: each value truncated to a byte. */
  function ToBytes(flat: seq<seq<real>>): (b: seq<seq<int>>)
    requires InRange(flat)
    ensures |b| == |flat|
    ensures forall p :: 0 <= p < |flat| ==> |b[p]| == |flat[p]|
    ensures forall p, c :: 0 <= p < |flat| && 0 <= c < |flat[p]| ==>
      0 <= b[p][c] <= 255 && b[p][c] as real <= flat[p][c] < b[p][c] as real + 1.0
  {
    seq(|flat|, p requires 0 <= p < |flat| =>
      seq(|flat[p]|, c requires 0 <= c < |flat[p]| => StoreByteBetween(flat[p][c], 0, 255); StoreByte(flat[p][c])))
  }

  /** Bytes survive the trip to floats and back. */
  lemma {:induction false} BytesRoundTrip(flat: seq<seq<int>>)
    requires forall p, c :: 0 <= p < |flat| && 0 <= c < |flat[p]| ==> 0 <= flat[p][c] <= 255
    ensures InRange(ToReals(flat)) && ToBytes(ToReals(flat)) == flat
  {
    var r := ToReals(flat);
    assert InRange(r);
    var b := ToBytes(r);
    forall p | 0 <= p < |flat|
      ensures b[p] == flat[p]
    {
      assert |b[p]| == |flat[p]|;
    }
  }

  /** The input image, flattened and converted to floats: every value in [0, 255]. */
  lemma {:induction false} StartInRange(image: seq<seq<seq<int>>>, h: nat, w: nat)
    requires ByteImage(image, h, w, 3)
    ensures Pixels(ToReals(Flatten(image)), h * w, 3) && InRange(ToReals(Flatten(image)))
    ensures ToBytes(ToReals(Flatten(image))) == Flatten(image)
  {
    FlattenBytes(image, h, w, 3);
    BytesRoundTrip(Flatten(image));
  }

  /** `random_walk_denoising_color_enhanced(image, weights, iterations, tol, beta,
      update_interval)`: no pass for `iterations <= 0`; the error Python raises on
      `iter_num % 0`; otherwise the image after the loop, truncated to uint8. */
  function RandomWalkResult(ps: WalkParams, image: seq<seq<seq<int>>>, weights: seq<Edge>, iterations: int)
    : Result<seq<seq<seq<int>>>>
    requires ByteImage(image, ps.h, ps.w, 3)
  {
    StartInRange(image, ps.h, ps.w);
    var flat0 := ToReals(Flatten(image));
    if iterations <= 0 then Success(Unflatten(ToBytes(flat0), ps.h, ps.w))
    else if ps.interval == 0 then Failure("integer modulo by zero")
    else
      WalkRunShape(ps, flat0, weights, iterations);
      Success(Unflatten(ToBytes(WalkRun(ps, flat0, weights, iterations).flat), ps.h, ps.w))
  }

  /** With no pass to run the image comes back unchanged. */
  lemma {:induction false} RandomWalkNoPasses(ps: WalkParams, image: seq<seq<seq<int>>>, weights: seq<Edge>, iterations: int)
    requires ByteImage(image, ps.h, ps.w, 3) && iterations <= 0
    ensures RandomWalkResult(ps, image, weights, iterations) == Success(image)
  {
    StartInRange(image, ps.h, ps.w);
    UnflattenFlatten(image, ps.h, ps.w);
  }

  /** The result is an error exactly when a pass would take `iter_num % 0`, and otherwise
      a uint8 image of the input's height and width with three channels. */
  lemma {:induction false} RandomWalkOutput(ps: WalkParams, image: seq<seq<seq<int>>>, weights: seq<Edge>, iterations: int)
    requires ByteImage(image, ps.h, ps.w, 3)
    ensures var result := RandomWalkResult(ps, image, weights, iterations);
      (result.Failure? <==> 0 < iterations && ps.interval == 0) &&
      (result.Success? ==> ByteImage(result.value, ps.h, ps.w, 3))
  {
    StartInRange(image, ps.h, ps.w);
    var flat0 := ToReals(Flatten(image));
    var last := flat0;
    if 0 < iterations && ps.interval != 0 {
      WalkRunShape(ps, flat0, weights, iterations);
      last := WalkRun(ps, flat0, weights, iterations).flat;
    }
    UnflattenBytes(ToBytes(last), ps.h, ps.w, 3);
  }

  // ---------------------------------------------------------------------------
  // The loop as the script runs it.

  /** The loop body: average, rebuild the weights with the builder when due, blend, and
      measure the change. */
  method WalkStep(ps: WalkParams, iterNum: nat, st: Walk) returns (next: Walk)
    requires ps.interval != 0 && Pixels(st.flat, ps.h * ps.w, 3)
    ensures next == WalkPass(ps, iterNum, st)
  {
    var avg := Averaged(st.weights, st.flat);
    var weights := st.weights;
    if iterNum % ps.interval == 0 {
      UnflattenImage(avg, ps.h, ps.w, 3);
      FlattenUnflatten(avg, ps.h, ps.w);
      weights := ComputeWeightMatrix(Unflatten(avg, ps.h, ps.w), ps.h, ps.w, ps.exp,
                                     ReweightSigma(ps.variant), ReweightAlpha(ps.variant));
    }
    var flat := Blend(ps.beta, avg, st.flat);
    next := Walk(flat, weights, RootBelow(SquaredGap(avg, flat), ps.tol));
  }

  /** `for iter_num in range(iterations)` with the early `break`. */
  method WalkLoop(ps: WalkParams, flat0: seq<seq<real>>, weights0: seq<Edge>, iterations: nat) returns (st: Walk)
    requires ps.interval != 0 && Pixels(flat0, ps.h * ps.w, 3)
    ensures st == WalkRun(ps, flat0, weights0, iterations)
  {
    st := Walk(flat0, weights0, false);
    var i := 0;
    while i < iterations && !st.stopped
      invariant i <= iterations && Pixels(st.flat, ps.h * ps.w, 3)
      invariant st == WalkRun(ps, flat0, weights0, i)
    {
      WalkRunNext(ps, flat0, weights0, i);
      st := WalkStep(ps, i, st);
      i := i + 1;
    }
    if i < iterations {
      IterateSettled(Passes(ps), Walk(flat0, weights0, false), i, iterations);
    }
  }

  /** An iteration that has not broken out runs one more pass. */
  lemma {:induction false} WalkRunNext(ps: WalkParams, flat0: seq<seq<real>>, weights0: seq<Edge>, i: nat)
    requires ps.interval != 0
    ensures var st := WalkRun(ps, flat0, weights0, i);
      !st.stopped ==> WalkRun(ps, flat0, weights0, i + 1) == WalkPass(ps, i, st)
  {
  }

  /** `random_walk_denoising_color_enhanced` as a whole. */
  method RandomWalkDenoising(ps: WalkParams, image: seq<seq<seq<int>>>, weights: seq<Edge>, iterations: int)
    returns (result: Result<seq<seq<seq<int>>>>)
    requires ByteImage(image, ps.h, ps.w, 3)
    ensures result == RandomWalkResult(ps, image, weights, iterations)
  {
    StartInRange(image, ps.h, ps.w);
    var flat0 := ToReals(Flatten(image));
    if iterations <= 0 {
      return Success(Unflatten(ToBytes(flat0), ps.h, ps.w));
    }
    if ps.interval == 0 {
      return Failure("integer modulo by zero");
    }
    var st := WalkLoop(ps, flat0, weights, iterations);
    WalkRunShape(ps, flat0, weights, iterations);
    result := Success(Unflatten(ToBytes(st.flat), ps.h, ps.w));
  }
}
