# Image denoising: a Dafny model

This project models the core of a small Python image-denoising repository and proves
properties of that model. The scripts it covers are:

- **Bilateral graph with two Laplacian solvers** (`accel/accelerate.py`).
  - `compute_bilateral_weights` builds a sparse weight matrix W over the pixels of one
    uint8 channel, from a 3 x 3 window, together with its degree matrix D.
  - `pcg_denoising` runs preconditioned conjugate gradients on L = D - W.
  - `nesterov_denoising` runs a momentum iteration on the same operator.
- **Random-walk smoothing** (`random_walk_denoise/`). Both scripts build a 4-neighbour
  affinity graph. They then repeatedly average each pixel over its neighbours, blend
  the result with the old values, clip it, and periodically rebuild the graph. The
  advanced script adds `replace_black_pixels_with_mean`.
- **Graph-cut labelling** (`graph_cutting_denoise/`). The grey and colour scripts each
  build a networkx flow network with a source, a sink and one node per pixel. They
  then label each pixel by the side of the minimum cut it falls on.
- **Window filters** (`denoised/`): the median filter, the colour mean filter, and the
  grey and colour bilateral filters. Each uses numpy's 'reflect' padding.
- **Noise injectors** (`add_noise/`): salt-and-pepper, uniform and Gaussian noise, in
  grey and colour. They also contain the conversions between PIL images and nested
  lists.

### Modules

| module | contents |
|---|---|
| `Numeric` (`numeric.dfy`) | numpy and Python scalar semantics: `int()` truncation, clamping, `np.clip`, uint8 stores and uint8 wrap-around; the exponential and the square root as abstract functions; sums and dot products |
| `Grid` (`grid.dfy`) | the row-major pixel index; `flatten` and `reshape`; channel slices; numpy's reflect index |
| `PixelGraph` (`pixel_graph.dfy`) | the neighbour scan shared by every graph builder; scipy's CSR view of the triplets (entries, row sums, the matrix-vector product) |
| `Accelerate` (`accelerate.dfy`) | `compute_bilateral_weights` |
| `Solvers` (`solvers.dfy`) | `pcg_denoising` and `nesterov_denoising` |
| `RandomWalk` (`random_walk.dfy`) | `compute_pixel_weight`, `compute_weight_matrix_color_enhanced`, `random_walk_denoising_color_enhanced` |
| `DarkPixels` (`dark_pixels.dfy`) | `replace_black_pixels_with_mean` |
| `GraphCut` (`graph_cut.dfy`) | the `DiGraph` as a class, both builders, the labelling, and minimum cuts of small networks |
| `Filters` (`filters.dfy`) | the median, mean and bilateral filters |
| `Noise` (`noise.dfy`) | the noise injectors |
| `Pictures` (`pictures.dfy`) | a PIL image as a class, and the list conversions |

### How the model represents the source

- **Numbers.** Arithmetic is exact: `int` and `real`. A float stored into a uint8
  array is truncated. Python's `int()` truncates toward zero.
- **uint8 wrap-around.** It is written out modulo 256 where the source computes on
  uint8 pixels:
  - the intensity difference, its square and its negation in
    `compute_bilateral_weights`;
  - `region - image_array[i, j]`, its square and its negation in the grey bilateral
    filter;
  - `diff` and `diff ** 2` when `compute_pixel_weight` gets the raw uint8 image
    (`RandomWalk.ByteAffinity`).
- **NumPy version.** In `compute_bilateral_weights` the two intensities are uint8
  scalars. `Accelerate.RangeNumerator` follows NumPy 2 scalar promotion (NEP 50):
  `** 2` with a Python int stays uint8. Under NumPy 1.x it promotes to int64, and only
  the subtraction wraps. `Accelerate.LegacyRangeNumerator` models that behaviour.
- **Exponential and square root.** `exp` and `np.sqrt` are function parameters,
  constrained by `ExpLike` and `SqrtLike`:
  - `ExpLike`: exp(0) = 1, and exp is positive and strictly increasing;
  - `SqrtLike`: the square root is the non-negative root.
- **Random numbers.** The k-th call to the random generator returns `draws(k)`. Every
  noise method returns how many draws it consumed.
- **The minimum cut.** `nx.minimum_cut` is a function parameter that returns the set of
  nodes on the source side.
- **Code that updates things in place** stays imperative:
  - numpy output arrays are fresh `array2` / `array3` values, written in the source's
    loop order;
  - the networkx graph is a class whose `capacity` map `add_edge` overwrites;
  - the PCG iterate and residual are arrays updated with `+=` and `-=`;
  - the PIL image is a class over an `array2`.
- **Loop results.** Each loop method is proved equal to a specification function. The
  properties the source promises are lemmas about those functions.

## Model

| member | source | states |
|---|---|---|
| Numeric.TruncToInt | add_noise/add_uniform_noise_grey.py:18 | Python's `int()` on a float truncates toward zero: the result is within 1 of the value, on the side of zero, and non-negative for non-negative input |
| Numeric.ClampByte | add_noise/add_uniform_noise_grey.py:18 | `max(0, min(255, n))` is a byte. It is the identity on bytes, 0 below the range and 255 above it |
| Numeric.Clip | graph_cutting_denoise/graph_cutting_grey.py:61 | `np.clip` lands in [lo, hi], keeps values already there, and sends values below to lo and values above to hi |
| Numeric.StoreByte | denoised/median_filter_grey.py:24 | storing a non-negative float into a uint8 array gives the byte b with b <= r < b + 1 |
| Numeric.WrapSq | accel/accelerate.py:27 | the square of a uint8 difference wraps to a byte and is 0 for equal pixels |
| Numeric.WrapSqSymmetric | accel/accelerate.py:27 | the wrapped squared difference does not depend on the order of the two pixels |
| Numeric.RootBelowIsRootTest | accel/accelerate.py:71 | for a non-negative rs, the test on squares holds exactly when `sqrt(rs) < tol` |
| Numeric.ClipVector | accel/accelerate.py:77 | `x.clip(0, 255)` keeps the length, puts every element in [0, 255], and leaves an in-range vector unchanged |
| Numeric.SquaredNormSwap | random_walk_denoise/random_walk_denoise.py:10 | the sum of squared differences is the same for a - b and b - a |
| Numeric.WeightedMeanBounds | denoised/bilateral_filter_grey.py:28 | a weighted mean with non-negative weights and a positive total lies between any bounds of its values |
| Grid.PixelIndexBijection | accel/accelerate.py:20 | `i * w + j` maps [0,h) x [0,w) into [0, h w), with inverse (p / w, p % w) |
| Grid.PixelIndexInjective | accel/accelerate.py:25 | two pixels share a flat index exactly when they are the same pixel |
| Grid.PixelIndexOnto | accel/accelerate.py:25 | every index below h w is the flat index of pixel (p / w, p % w) |
| Grid.FlattenAt | accel/accelerate.py:13 | `flatten()` of an h x w grid has h w elements, with pixel (i, j) at index i w + j |
| Grid.UnflattenFlatten | random_walk_denoise/random_walk_denoise.py:62 | reshaping a flattened image to (h, w) gives the image back |
| Grid.FlattenUnflatten | random_walk_denoise/random_walk_denoise.py:45 | flattening a reshaped buffer gives the buffer back |
| Grid.Channel | denoised/bilateral_filter_colored.py:22 | `image[:, :, c]` is an h x w grid whose cell (i, j) is channel c of pixel (i, j) |
| Grid.ReflectInside | denoised/median_filter_grey.py:18 | reflect padding reads an index inside the axis unchanged |
| Grid.ReflectMirror | denoised/median_filter_grey.py:18 | within a pad narrower than the axis, index -m reads m and index n-1+m reads n-1-m; the edge sample is not repeated |
| Grid.SpatialDiffSign | accel/accelerate.py:26 | `di**2 + dj**2` is never negative, and is zero exactly at offset (0, 0) |
| PixelGraph.VisitAll | accel/accelerate.py:18-32 | the nested loops over pixels and offsets emit exactly the scan's edges, in loop order |
| PixelGraph.AxisMembers | random_walk_denoise/random_walk_denoise.py:28 | the offset list holds exactly the four axis neighbours, and it holds an offset exactly when it holds the reverse one |
| PixelGraph.MatrixEntry | accel/accelerate.py:30-34 | the CSR entry (p, q) between two pixels holds exactly one triplet, with the scan's weight, when the scan links them, and nothing otherwise |
| PixelGraph.MatrixSymmetric | accel/accelerate.py:34 | if the offsets are closed under reversal and the weight is symmetric, then (p, q) is stored iff (q, p) is, with the same value |
| PixelGraph.RowShape | accel/accelerate.py:21-32 | each row of the matrix holds at most one triplet per offset |
| PixelGraph.AllTargets | accel/accelerate.py:34 | every stored column index lies below h w, so the triplets fit `shape=(num_pixels, num_pixels)` |
| PixelGraph.AllSources | accel/accelerate.py:34 | every stored row index lies below h w |
| PixelGraph.AllPositive | accel/accelerate.py:28-32 | if every in-bounds pair has a positive weight, then every stored triplet does |
| PixelGraph.RowDotLinear | accel/accelerate.py:64 | the sparse product is linear: W (v + c u) = W v + c W u |
| PixelGraph.EntryAtMostRowSum | accel/accelerate.py:35 | with non-negative weights, an entry lies between 0 and its row sum |
| PixelGraph.RowDotWithin | random_walk_denoise/random_walk_denoise.py:51 | with non-negative weights, row p of W v lies between lo and hi times the row sum, whenever lo and hi bound p's neighbours |
| PixelGraph.RowDotZeroSum | random_walk_denoise/random_walk_denoise.py:50-51 | with non-negative weights, a row whose sum is zero gives a zero product |
| PixelGraph.ConstantInKernel | accel/accelerate.py:56 | the degree is the row sum, so (D - W) maps a constant vector to zero |
| Accelerate.WindowMembers | accel/accelerate.py:21-22 | the two loops visit exactly the offsets with -1 <= di, dj <= 1, (0, 0) included |
| Accelerate.WindowAt | accel/accelerate.py:21-22 | pass (di, dj) of the two loops is window entry 3 (di + 1) + (dj + 1) |
| Accelerate.WindowDistinct | accel/accelerate.py:21-22 | no offset is visited twice |
| Accelerate.WindowSymmetricAt | accel/accelerate.py:21-22 | an offset is in the window exactly when its reverse is |
| Accelerate.NegByte | accel/accelerate.py:28-29 | numpy's unary minus on a uint8 value wraps: it gives a byte, is zero exactly on multiples of 256, and sends t in (0, 256) to 256 - t |
| Accelerate.WeightPositive | accel/accelerate.py:26-29 | every weight as written is positive, and a pixel's weight to itself is 1 |
| Accelerate.RangeFactorAtLeastOne | accel/accelerate.py:27-29 | as written, the intensity numerator is never negative, so the intensity factor is at least 1 |
| Accelerate.RangeFactorExceedsOne | accel/accelerate.py:27-29 | as written, intensities 0 and 1 give numerator 255 and an intensity factor above 1, where the intended numerator is -1 with a factor below 1 |
| Accelerate.IntendedWeightInUnit | accel/accelerate.py:26-29 | the intended weight, on true squared differences, lies in (0, 1] |
| Accelerate.IntendedSelfWeight | accel/accelerate.py:26-29 | the intended weight of a pixel to itself is 1 |
| Accelerate.WeightSymmetric | accel/accelerate.py:26-29 | the weight as written is unchanged when the two pixels swap and the offset is reversed |
| Accelerate.IntendedWeightSymmetric | accel/accelerate.py:26-29 | the intended weight is symmetric in the same way |
| Accelerate.LegacyRangeNumerator | accel/accelerate.py:27 | under NumPy 1.x scalar promotion the intensity numerator is minus the square of the wrapped difference: never positive, and zero exactly when the two intensities agree modulo 256 |
| Accelerate.LegacyWeightAsymmetric | accel/accelerate.py:26-29 | under NumPy 1.x every weight lies in (0, 1], but intensities 1 and 0 give numerators -1 and -65025 in the two directions, so the weight of p to q is strictly larger than that of q to p |
| Accelerate.ScanWeightAt | accel/accelerate.py:25-29 | the weight between two pixels reads their intensities at their flat indices |
| Accelerate.BilateralEdgeTo | accel/accelerate.py:23-32 | offset (di, dj) of pixel (i, j) adds one triplet (p_idx, q_idx, weight) when the neighbour is in bounds, and none otherwise |
| Accelerate.VisitNeighbour | accel/accelerate.py:23-32 | the inner loop body appends exactly that offset's triplet |
| Accelerate.WindowTriplets | accel/accelerate.py:21-32 | the di and dj loops append pixel (i, j)'s triplets, in window order |
| Accelerate.RowTriplets | accel/accelerate.py:19-32 | the j loop extends the triplets of the rows above with those of row i |
| Accelerate.CollectTriplets | accel/accelerate.py:18-32 | the four loops produce exactly the triplets of the bilateral scan of the flattened channel |
| Accelerate.RowSums | accel/accelerate.py:35 | D holds one degree per pixel, each the row sum of W |
| Accelerate.ComputeBilateralWeights | accel/accelerate.py:10-36 | W is exactly the bilateral scan of the flattened channel, and D holds its row sums |
| Accelerate.BilateralEntries | accel/accelerate.py:18-34 | W[p, q] holds one triplet with the bilateral weight when q is within one row and one column of p (p itself included), and nothing otherwise |
| Accelerate.BilateralSymmetricWeight | accel/accelerate.py:26-29 | the scan's weight is symmetric for every in-bounds pair |
| Accelerate.BilateralMatrixSymmetric | accel/accelerate.py:26-34 | W is symmetric: (p, q) is stored iff (q, p) is, with the same value |
| Accelerate.SelfLoopWeight | accel/accelerate.py:21-29 | every pixel has a self-loop of weight exactly 1 |
| Accelerate.BilateralPositive | accel/accelerate.py:28-32 | every stored weight is positive |
| Accelerate.DegreeAtLeastOne | accel/accelerate.py:35 | every degree D[p] is at least 1, so the diagonal solves never divide by zero |
| Accelerate.LaplacianOfConstant | accel/accelerate.py:56 | (D - W) v is zero at every pixel for a constant v |
| Solvers.LaplacianZero | accel/accelerate.py:58 | L maps the zero vector to zero |
| Solvers.LaplacianLinear | accel/accelerate.py:64-67 | L (v + c u) = L v + c L u |
| Solvers.LaplacianConstant | accel/accelerate.py:56 | when d holds the row sums of W, L maps every constant vector to the zero vector |
| Solvers.DiagSolve | accel/accelerate.py:59 | `spsolve(D, r)` for the diagonal D returns the z with D z = r |
| Solvers.DegreesInvertible | accel/accelerate.py:59 | degrees of at least 1 make D invertible |
| Solvers.PcgStartResidual | accel/accelerate.py:57-58 | the loop starts from x = 0, with residual r = b |
| Solvers.PcgPassResidual | accel/accelerate.py:64-67 | `x += alpha p` together with `r -= alpha Ap` keeps r = b - L x |
| Solvers.PcgResidual | accel/accelerate.py:57-75 | after any number of passes that did not break down, r = b - L x |
| Solvers.PcgRunSettled | accel/accelerate.py:71-73 | once the tolerance test has broken out of the loop, or a divisor was zero, further passes change nothing |
| Solvers.PcgOutputRange | accel/accelerate.py:77 | a successful result has one value per pixel, each in [0, 255] |
| Solvers.AddScaled | accel/accelerate.py:66 | the in-place `v += c u` leaves v equal to old v + c u |
| Solvers.PcgInit | accel/accelerate.py:57-61 | the set-up gives fresh, distinct arrays x and r, and the starting state x = 0, r = b - L x, z = D^-1 r, p = z, rs_old = r z |
| Solvers.PcgPassInPlace | accel/accelerate.py:64-75 | one pass on the arrays yields the specified pass outcome, with x and r holding its iterate and residual |
| Solvers.PcgLoop | accel/accelerate.py:63-75 | the loop runs at most max_iter passes and stops at the tolerance test or at a zero divisor; its outcome is the specified run, and x holds the iterate |
| Solvers.PcgDenoising | accel/accelerate.py:55-77 | the result is the clipped iterate of at most max_iter passes from x = 0; a singular D, p @ Ap = 0 or rs_old = 0 is reported as an error |
| Solvers.NextT | accel/accelerate.py:89 | `t_new = (1 + sqrt(1 + 4 t^2)) / 2` is at least t + 1/2 |
| Solvers.MomentumInUnit | accel/accelerate.py:90 | `beta = (t - 1) / t_new` lies in [0, 1) once t >= 1 |
| Solvers.NesterovPass | accel/accelerate.py:87-94 | one pass keeps the vector lengths and strictly increases t |
| Solvers.NesterovRun | accel/accelerate.py:85-94 | t never decreases over the passes |
| Solvers.NesterovPassZero | accel/accelerate.py:88-93 | from x = y = 0, one pass leaves x = y = 0 |
| Solvers.NesterovStaysZero | accel/accelerate.py:85-94 | from x = y = 0 the iterates never leave zero, whatever W, D and t |
| Solvers.NesterovStep | accel/accelerate.py:87-94 | the loop body computes exactly the specified pass |
| Solvers.NesterovDenoising | accel/accelerate.py:80-96 | the result is the clipped iterate after max_iter passes, and that is the zero vector for every W, D, b and max_iter |
| RandomWalk.AffinityInUnit | random_walk_denoise/random_walk_denoise.py:9-15 | the colour exponent is clamped to [-100, 0], so both factors, and the weight, lie in (0, 1] |
| RandomWalk.NegU64 | random_walk_denoise/random_walk_denoise.py:11 | unary minus on the uint64 that `np.sum` returns wraps: the result lies in [0, 2^64) and is zero exactly on multiples of 2^64 |
| RandomWalk.ByteAffinitySpatialOnly | random_walk_denoise/random_walk_denoise.py:9-15 | on uint8 pixels, as in the weights built from the raw image (line 99), the colour factor is always 1: the weight is the spatial factor alone and does not depend on the colours |
| RandomWalk.AffinitySymmetric | random_walk_denoise/random_walk_denoise.py:10-14 | the weight is unchanged when the colour difference is negated and the offset reversed |
| RandomWalk.ScanAffinityAt | random_walk_denoise/random_walk_denoise.py:31-33 | the builder's weight between two pixels is `compute_pixel_weight` of their colour difference and offset |
| RandomWalk.ComputeWeightMatrix | random_walk_denoise/random_walk_denoise.py:18-40 | the loops produce exactly the triplets of the affinity scan of the flattened image (the same builder is at random_walk_denoise_advanced.py lines 16-38) |
| RandomWalk.AffinityEntries | random_walk_denoise/random_walk_denoise.py:25-39 | W[p, q] holds one triplet exactly when q is an axis neighbour of p whose weight exceeds 1e-5, so there are no self-loops |
| RandomWalk.AffinityScanSymmetric | random_walk_denoise/random_walk_denoise.py:32-33 | the weight of a pixel pair does not depend on which pixel comes first |
| RandomWalk.AffinityMatrixSymmetric | random_walk_denoise/random_walk_denoise.py:32-39 | W is symmetric: (p, q) is stored iff (q, p) is, with the same value |
| RandomWalk.AffinityRowLength | random_walk_denoise/random_walk_denoise.py:28-37 | each row of W holds at most four triplets |
| RandomWalk.AffinityPositive | random_walk_denoise/random_walk_denoise.py:30-37 | every stored weight is positive, and every column index is a pixel |
| RandomWalk.AverageIsolated | random_walk_denoise/random_walk_denoise.py:49-51 | a pixel whose row sums to zero gets the divisor 1e-10 and the value 0 |
| RandomWalk.AverageBetween | random_walk_denoise/random_walk_denoise.py:49-51 | any other pixel is divided by its row sum, giving a value between the least and the greatest of its neighbours |
| RandomWalk.Blend | random_walk_denoise/random_walk_denoise.py:58-59 | the blend keeps the image's shape, and its clip puts every value in [0, 255] |
| RandomWalk.BlendFixed | random_walk_denoise/random_walk_denoise.py:58-59 | if the averaging leaves an in-range image unchanged, so does the blend, whatever beta is |
| RandomWalk.SquaredGap | random_walk_denoise/random_walk_denoise.py:60 | the squared norm of the change is never negative |
| RandomWalk.StopTestIsNormTest | random_walk_denoise/random_walk_denoise.py:60 | the early-exit test on the squared norm holds exactly when `norm(new_image - flat_image) < tol` |
| RandomWalk.WalkPass | random_walk_denoise/random_walk_denoise.py:49-61 | a pass keeps the image's shape and leaves every value in [0, 255] |
| RandomWalk.IterateSettled | random_walk_denoise/random_walk_denoise.py:47-61 | after the `break`, later iterations change nothing |
| RandomWalk.WalkRunShape | random_walk_denoise/random_walk_denoise.py:47-61 | every iteration keeps the shape; after one pass all values lie in [0, 255]; the loop can only break after a pass |
| RandomWalk.WalkPassWeights | random_walk_denoise/random_walk_denoise.py:54-55 | the weights change only when `iter_num % update_interval == 0`. They then become the affinity graph of the averaged image, with sigma 10 and alpha 1.5 (8 and 1.2 at random_walk_denoise_advanced.py lines 51-52) |
| RandomWalk.WalkPassWeightsValid | random_walk_denoise/random_walk_denoise.py:54-55 | a pass keeps the weights non-negative and inside the image |
| RandomWalk.WalkWeightsValid | random_walk_denoise/random_walk_denoise.py:47-55 | valid starting weights stay valid at every pass, so every average is a weighted average or an isolated zero |
| RandomWalk.ToBytes | random_walk_denoise/random_walk_denoise.py:62 | `astype(np.uint8)` truncates each value in [0, 255] to the byte just below it, keeping the shape |
| RandomWalk.BytesRoundTrip | random_walk_denoise/random_walk_denoise.py:45 | bytes converted to floats and truncated back are unchanged |
| RandomWalk.StartInRange | random_walk_denoise/random_walk_denoise.py:45 | the flattened float image has one triple per pixel, each value in [0, 255] |
| RandomWalk.RandomWalkNoPasses | random_walk_denoise/random_walk_denoise.py:47-62 | with `iterations <= 0` the image comes back unchanged |
| RandomWalk.RandomWalkOutput | random_walk_denoise/random_walk_denoise.py:43-62 | the result is an error exactly when a pass would compute `iter_num % 0`; otherwise it is a uint8 image with the input's height and width and three channels |
| RandomWalk.WalkStep | random_walk_denoise/random_walk_denoise.py:49-61 | the loop body computes exactly the specified pass |
| RandomWalk.WalkLoop | random_walk_denoise/random_walk_denoise.py:47-61 | the loop with its early `break` computes exactly the specified run |
| RandomWalk.RandomWalkDenoising | random_walk_denoise/random_walk_denoise.py:43-62 | the function returns the specified result (the same loop is at random_walk_denoise_advanced.py lines 41-59) |
| DarkPixels.PixelMax | random_walk_denoise/random_walk_denoise_advanced.py:78 | `np.max` of a pixel is one of its channels, and no channel exceeds it |
| DarkPixels.Dark | random_walk_denoise/random_walk_denoise_advanced.py:78 | a pixel is dark exactly when every channel is below the threshold |
| DarkPixels.NeighboursUpTo | random_walk_denoise/random_walk_denoise_advanced.py:80-83 | the first k offsets contribute at most k neighbours, each with three channels |
| DarkPixels.NeighboursUpToMembers | random_walk_denoise/random_walk_denoise_advanced.py:80-83 | the first k offsets contribute exactly the pixels of those offsets that stay in the image |
| DarkPixels.NeighboursMembers | random_walk_denoise/random_walk_denoise_advanced.py:79-83 | `neighbors` holds the pixel of every in-bounds 8-neighbour, read from the original image, and nothing else |
| DarkPixels.InteriorNeighbours | random_walk_denoise/random_walk_denoise_advanced.py:80-83 | a pixel away from the border has eight neighbours |
| DarkPixels.Brights | random_walk_denoise/random_walk_denoise_advanced.py:86 | the filtered list keeps exactly the neighbours that are not dark |
| DarkPixels.MeanWithin | random_walk_denoise/random_walk_denoise_advanced.py:88 | each channel of the truncated mean lies between that channel's bounds over the averaged pixels |
| DarkPixels.RepairedPixel | random_walk_denoise/random_walk_denoise_advanced.py:74-90 | the new value has three channels, and differs from the old one only for a dark pixel |
| DarkPixels.DarkNeighbourhoodGrey | random_walk_denoise/random_walk_denoise_advanced.py:89-90 | a dark pixel whose in-bounds neighbours are all dark becomes (128, 128, 128) |
| DarkPixels.DarkPixelMean | random_walk_denoise/random_walk_denoise_advanced.py:86-88 | a dark pixel with a bright neighbour becomes their mean: each channel lies within any bounds of that channel over the bright neighbours |
| DarkPixels.RepairedByte | random_walk_denoise/random_walk_denoise_advanced.py:74-90 | the repair maps a uint8 image to a uint8 image |
| DarkPixels.CollectNeighbours | random_walk_denoise/random_walk_denoise_advanced.py:79-83 | the offset loop builds exactly the neighbour list |
| DarkPixels.RepairPixel | random_walk_denoise/random_walk_denoise_advanced.py:78-90 | the body for one pixel computes its repaired value |
| DarkPixels.RepairRow | random_walk_denoise/random_walk_denoise_advanced.py:77-90 | the column loop sets every pixel of row i to its repaired value and leaves the other rows alone |
| DarkPixels.ReplaceBlackPixelsWithMean | random_walk_denoise/random_walk_denoise_advanced.py:62-91 | the result is a fresh copy of the image's shape in which every pixel holds its repaired value; the input is not written |
| GraphCut.FlowNetwork.constructor | graph_cutting_denoise/graph_cutting_grey.py:49 | `nx.DiGraph()` starts with no arcs |
| GraphCut.FlowNetwork.AddEdge | graph_cutting_denoise/graph_cutting_grey.py:64 | `add_edge(u, v, capacity=c)` sets arc (u, v) to c and changes no other arc |
| GraphCut.InsertedAt | graph_cutting_denoise/graph_cutting_grey.py:64-80 | an arc no call names keeps its capacity, and an arc exactly one call names ends up with that call's capacity |
| GraphCut.TerminalsApart | graph_cutting_denoise/graph_cutting_grey.py:45-52 | every pixel node i w + j differs from the source h w and the sink h w + 1 |
| GraphCut.GreyIntensities | graph_cutting_denoise/graph_cutting_grey.py:61 | every clipped intensity lies in [0, 255], and in-range intensities are kept |
| GraphCut.Floats | graph_cutting_denoise/graph_cutting_grey.py:54 | `astype(np.float64)` keeps every pixel value |
| GraphCut.Luma | graph_cutting_denoise/graph_cutting_colored.py:58 | the BT.601 luma of channels in [0, 255] lies in [0, 255], and a grey pixel keeps its value |
| GraphCut.TerminalCapacities | graph_cutting_denoise/graph_cutting_grey.py:61-63 | for an intensity in [0, 255] both terminal capacities lie in [0, data_weight], and the source capacity at x is the sink capacity at 255 - x |
| GraphCut.TerminalOrder | graph_cutting_denoise/graph_cutting_grey.py:62-63 | the sink arc is the cheaper one exactly for intensities up to 127.5, and the source arc exactly from 127.5 up |
| GraphCut.DataArcs | graph_cutting_denoise/graph_cutting_grey.py:58-65 | after m pixels the data loop has added exactly the arcs source -> p and p -> sink of those pixels, with their capacities |
| GraphCut.NetworkTerminals | graph_cutting_denoise/graph_cutting_grey.py:58-65 | every pixel has a source arc and a sink arc priced from its intensity |
| GraphCut.NetworkPixels | graph_cutting_denoise/graph_cutting_grey.py:69-80 | two pixels are joined by an arc exactly when the scan links them, and the arc carries the scan's weight |
| GraphCut.NetworkOnlyArcs | graph_cutting_denoise/graph_cutting_grey.py:58-80 | every arc leaves the source for a pixel, leaves a pixel for the sink, or joins two pixels |
| GraphCut.NetworkAxisArcs | graph_cutting_denoise/graph_cutting_grey.py:72-80 | two pixels are joined exactly when they are axis neighbours, and then in both directions |
| GraphCut.CappedGap | graph_cutting_denoise/graph_cutting_grey.py:76 | `min(abs(a - b), 50)` lies in [0, 50] |
| GraphCut.GapSquared | graph_cutting_denoise/graph_cutting_grey.py:76-78 | the squared capped gap lies in [0, 2500] and does not depend on the order of the two pixels |
| GraphCut.SmoothCapacityBounds | graph_cutting_denoise/graph_cutting_grey.py:78-79 | with a positive smooth_weight, each neighbour capacity lies in (0, smooth_weight] |
| GraphCut.SmoothCapacityDecreasing | graph_cutting_denoise/graph_cutting_grey.py:78-79 | a larger colour difference gives a strictly smaller capacity |
| GraphCut.SmoothCapacityReversed | graph_cutting_denoise/graph_cutting_grey.py:77-79 | reversing the offset keeps the capacity, because the offset enters squared |
| GraphCut.GreyCapacityPair | graph_cutting_denoise/graph_cutting_grey.py:76-79 | between two pixels the grey capacity is symmetric and lies in (0, smooth_weight] |
| GraphCut.ColourCapacityPair | graph_cutting_denoise/graph_cutting_colored.py:71-74 | the colour capacity uses the uncapped colour distance, is symmetric, and lies in (0, smooth_weight] |
| GraphCut.GreyNetworkTerminals | graph_cutting_denoise/graph_cutting_grey.py:58-65 | in the grey network every pixel has a source arc and a sink arc, priced from its clipped intensity and lying within [0, data_weight] |
| GraphCut.GreyNetworkNeighbours | graph_cutting_denoise/graph_cutting_grey.py:69-80 | in the grey network pixels are joined exactly when they are axis neighbours; the arc back has the same capacity, within (0, smooth_weight] |
| GraphCut.ColourNetworkTerminals | graph_cutting_denoise/graph_cutting_colored.py:54-62 | in the colour network every pixel's terminal arcs are priced from its luma, within [0, data_weight] for a uint8 image |
| GraphCut.ColourNetworkNeighbours | graph_cutting_denoise/graph_cutting_colored.py:64-75 | in the colour network pixels are joined exactly when they are axis neighbours; the arc back has the same capacity, within (0, smooth_weight] |
| GraphCut.SinglePixelNetwork | graph_cutting_denoise/graph_cutting_grey.py:58-80 | a one-pixel network has exactly the arcs source -> pixel and pixel -> sink |
| GraphCut.SinglePixelCutValue | graph_cutting_denoise/graph_cutting_grey.py:88 | a cut of that network pays the sink arc when the pixel is on the source side, and the source arc otherwise |
| GraphCut.SinglePixelCut | graph_cutting_denoise/graph_cutting_grey.py:84-88 | a minimum cut puts the pixel on the side whose arc is cheaper to cut |
| GraphCut.GreySinglePixelInverted | graph_cutting_denoise/graph_cutting_grey.py:62-92 | as written, a single uint8 pixel ends up on the source side (painted 255) exactly when it is at most 127 |
| GraphCut.IntendedGreyTerminals | graph_cutting_denoise/graph_cutting_grey.py:62-63 | in the intended network the source arc costs the pixel's brightness term and the sink arc its darkness term |
| GraphCut.IntendedGreySinglePixel | graph_cutting_denoise/graph_cutting_grey.py:62-92 | with the intended capacities, a single pixel is painted 255 exactly when it is at least 128 |
| GraphCut.ColourSinglePixelInverted | graph_cutting_denoise/graph_cutting_colored.py:59-88 | as written, a single colour pixel is kept only if its luma is at most mid-grey, and blackened only if it is at least mid-grey |
| GraphCut.AddTerminalEdges | graph_cutting_denoise/graph_cutting_grey.py:64-65 | the two calls for pixel p add its source arc and then its sink arc |
| GraphCut.AddDataRow | graph_cutting_denoise/graph_cutting_grey.py:59-65 | the data loop over row i extends the network by the terminal arcs of that row |
| GraphCut.AddNeighbourEdge | graph_cutting_denoise/graph_cutting_grey.py:73-80 | one offset adds the arc to the in-bounds neighbour, and nothing otherwise |
| GraphCut.AddPixelEdges | graph_cutting_denoise/graph_cutting_grey.py:72-80 | the offset loop adds pixel (i, j)'s neighbour arcs, in offset order |
| GraphCut.AddNeighbourPixel | graph_cutting_denoise/graph_cutting_grey.py:70-80 | one pass of the neighbour loop extends the network by pixel (i, j)'s arcs |
| GraphCut.AddNeighbourRow | graph_cutting_denoise/graph_cutting_grey.py:70-80 | the neighbour loop over row i extends the network by that row's arcs |
| GraphCut.BuildNetwork | graph_cutting_denoise/graph_cutting_grey.py:49-80 | both loops build exactly the specified network in a fresh graph |
| GraphCut.LabelGreyRow | graph_cutting_denoise/graph_cutting_grey.py:90-92 | row i becomes 255 on the source side and 0 elsewhere; other rows are unchanged |
| GraphCut.ImageDenoisingBkGrayscale | graph_cutting_denoise/graph_cutting_grey.py:34-94 | the output is a fresh binary image of the input's shape, 255 exactly on the pixels the minimum cut of the grey network leaves on the source side |
| GraphCut.LabelColourRow | graph_cutting_denoise/graph_cutting_colored.py:83-88 | row i keeps source-side pixels and blackens the rest; other rows are unchanged |
| GraphCut.ImageDenoisingBkColorOptimized | graph_cutting_denoise/graph_cutting_colored.py:38-90 | the output is a fresh image of the input's shape that keeps exactly the source-side pixels of the colour network's minimum cut and blackens the rest |
| Filters.PadReflect | denoised/median_filter_grey.py:18 | padding by `pad` gives an (h + 2 pad) x (w + 2 pad) grid |
| Filters.PadReflectCentre | denoised/median_filter_grey.py:18 | the original grid sits unchanged in the middle of the padded one |
| Filters.PadReflectRows | denoised/median_filter_grey.py:17-18 | padded row m above the image copies row m, and padded row m below it copies row h-1-m, without repeating the edge row |
| Filters.PadReflectColumns | denoised/median_filter_grey.py:17-18 | the same mirroring holds on the columns |
| Filters.PadReflectWithin | denoised/median_filter_grey.py:18 | padding keeps every bound of the grid |
| Filters.RegionAt | denoised/median_filter_grey.py:23 | sample (a, b) of the k x k block is padded sample (i + a, j + b) |
| Filters.WindowCentred | denoised/median_filter_grey.py:17-23 | sample (a, b) of the window of (i, j) is the reflected image sample at offset (a - k//2, b - k//2), and sample (k//2, k//2) is pixel (i, j) itself; for odd k that is the middle sample, so the window is centred |
| Filters.WindowWithin | denoised/median_filter_grey.py:23 | the window of an image within [lo, hi] is within [lo, hi] |
| Filters.Insert | denoised/median_filter_grey.py:24 | inserting a sample gives a permutation of the samples plus the new one |
| Filters.InsertSorted | denoised/median_filter_grey.py:24 | inserting into a sorted window keeps it sorted |
| Filters.Sort | denoised/median_filter_grey.py:24 | the sorted window is sorted and a permutation of the window |
| Filters.SortCounts | denoised/median_filter_grey.py:24 | sorting keeps the number of samples on either side of any value |
| Filters.MedianOdd | denoised/median_filter_grey.py:24 | for an odd window the median is a sample, with at least half the window, rounded up, at or below it and at least as many at or above it |
| Filters.MedianEven | denoised/median_filter_grey.py:19-24 | for an even window the stored median is the truncated mean of two samples x <= y, with half the window at most x and half at least y |
| Filters.MedianEvenValue | denoised/median_filter_grey.py:19-24 | for an even window the stored median is the integer mean of the two middle sorted samples |
| Filters.MedianBounds | denoised/median_filter_grey.py:24 | the median lies between any bounds of its window |
| Filters.MedianFilterBounds | denoised/median_filter_grey.py:17-26 | every output pixel lies between the bounds of the image, so a constant image comes back unchanged |
| Filters.MedianOfBlock | denoised/median_filter_grey.py:23-24 | the loop body stores the median of pixel (i, j)'s window |
| Filters.MedianFilterRow | denoised/median_filter_grey.py:22-24 | the inner loop fills row i and leaves the other rows alone |
| Filters.MedianFilterGrey | denoised/median_filter_grey.py:7-26 | the output is a fresh array of the input's shape holding the median of every pixel's window |
| Filters.MeanIsFloor | denoised/mean_filter_colored.py:25 | the stored mean m is the floor of the window average: m k^2 <= sum < (m + 1) k^2 |
| Filters.MeanBounds | denoised/mean_filter_colored.py:25 | the stored mean lies between any bounds of its window |
| Filters.PadImage | denoised/mean_filter_colored.py:18 | padding widens the two spatial axes by 2 pad and keeps the channel count |
| Filters.PadSampleChannel | denoised/mean_filter_colored.py:18 | padding the image and then taking a channel equals taking the channel and then padding it |
| Filters.ChannelWindow | denoised/mean_filter_colored.py:21-24 | the window channel c reads is the grey window of input channel c alone |
| Filters.MeanFilterBounds | denoised/mean_filter_colored.py:17-25 | every output sample lies between the bounds of its input channel, so a constant channel comes back unchanged |
| Filters.MeanOfBlock | denoised/mean_filter_colored.py:24-25 | the loop body stores the truncated mean of channel c's window at (i, j) |
| Filters.MeanFilterRow | denoised/mean_filter_colored.py:22-25 | the innermost loops fill row i of channel c and leave everything else alone |
| Filters.MeanFilterChannel | denoised/mean_filter_colored.py:21-25 | one pass of the channel loop fills channel c and leaves the other channels alone |
| Filters.MeanFilterColour | denoised/mean_filter_colored.py:7-27 | the output is a fresh array of the input's shape whose sample (i, j, c) is the truncated window mean of channel c |
| Filters.SourceKernelIsKernel | denoised/bilateral_filter_grey.py:24-27 | every weight as written is positive, and the centre sample weighs 1 |
| Filters.IntendedKernelIsKernel | denoised/bilateral_filter_grey.py:24-27 | the same holds for the intended kernel |
| Filters.BilateralFavoursDissimilar | denoised/bilateral_filter_grey.py:26 | as written, around a centre of level 1 a black neighbour outweighs a neighbour equal to the centre at the same offset |
| Filters.IntendedPrefersSimilar | denoised/bilateral_filter_grey.py:26 | with the intended kernel, a sample closer in value to the centre never weighs less than a farther one at the same offset |
| Filters.WindowWeightsCentre | denoised/bilateral_filter_grey.py:24-28 | all window weights are positive and the centre weighs 1, so the total weight is at least 1 and the division is defined |
| Filters.NormalisedMeanBounds | denoised/bilateral_filter_grey.py:28 | the stored normalised mean lies between any bounds of its window |
| Filters.BilateralBounds | denoised/bilateral_filter_grey.py:18-30 | every output pixel lies between the bounds of the image, so a constant image comes back unchanged |
| Filters.BilateralOfBlock | denoised/bilateral_filter_grey.py:23-28 | the loop body stores the bilateral value of pixel (i, j) |
| Filters.BilateralRow | denoised/bilateral_filter_grey.py:22-28 | the inner loop fills row i and leaves the other rows alone |
| Filters.BilateralFilterGrey | denoised/bilateral_filter_grey.py:7-30 | the output is a fresh array of the input's shape holding the bilateral value of every pixel |
| Filters.BilateralColourRow | denoised/bilateral_filter_colored.py:24-31 | the inner loop fills row i of channel c and leaves everything else alone |
| Filters.BilateralFilterColour | denoised/bilateral_filter_colored.py:8-33 | the output is a fresh array of the input's shape whose channel c is the grey bilateral filter of input channel c alone |
| Noise.SaltPepperOutcome | add_noise/add_salt_and_pepper_noise_grey.py:16-20 | every output is 255, 0 or the input value; a byte stays a byte; with both probabilities zero, a draw from [0, 1) keeps the pixel |
| Noise.AddSaltAndPepperNoise | add_noise/add_salt_and_pepper_noise_grey.py:4-22 | the result has the input's shape, one draw is taken per pixel in row-major order, and each pixel follows its own draw |
| Noise.AddClampValue | add_noise/add_uniform_noise_grey.py:17-18 | the stored value is a byte: the floor of p + n inside [0, 256), 0 below and 255 above; zero noise keeps a byte |
| Noise.TruncationInvisible | add_noise/add_uniform_noise_grey.py:18 | truncation toward zero and flooring store the same byte once clamped |
| Noise.AddNoiseGrey | add_noise/add_uniform_noise_grey.py:4-20 | the result has the input's shape, one noise value is taken per pixel in row-major order, and each pixel is its clamped, truncated sum (the same function is at add_gaussian_noise_grey.py lines 3-19) |
| Noise.NoiseChannels | add_noise/add_uniform_noise_colored.py:16-19 | the channel loop gives channel c the noise value draws(start + c) and takes one value per channel |
| Noise.AddNoiseColour | add_noise/add_uniform_noise_colored.py:4-21 | the result has the input's shape, one noise value is taken per channel value in (i, j, c) order, and each value is clamped and truncated (the same function is at add_gaussian_noise_colored.py lines 5-22) |
| Noise.NoiseColourBytes | add_noise/add_uniform_noise_colored.py:19 | every noisy channel value is a byte, whatever the noise |
| Noise.RowRun | add_noise/add_salt_and_pepper_noise_colored.py:15-21 | a row keeps its length and takes between one and two draws per pixel |
| Noise.GridRun | add_noise/add_salt_and_pepper_noise_colored.py:14-21 | the image keeps its shape and takes between one and two draws per pixel |
| Noise.RowRunOutcomes | add_noise/add_salt_and_pepper_noise_colored.py:16-21 | every pixel of a row becomes white, black or stays the input pixel |
| Noise.GridRunOutcomes | add_noise/add_salt_and_pepper_noise_colored.py:16-21 | every output pixel is white, black or the input pixel |
| Noise.RowRunZero | add_noise/add_salt_and_pepper_noise_colored.py:16-21 | with both probabilities zero and draws from [0, 1), a row comes back unchanged |
| Noise.GridRunZero | add_noise/add_salt_and_pepper_noise_colored.py:16-21 | with both probabilities zero and draws from [0, 1), the image comes back unchanged |
| Noise.SaltPepperRow | add_noise/add_salt_and_pepper_noise_colored.py:15-21 | the inner loop computes exactly the specified row run |
| Noise.AddSaltAndPepperNoiseColour | add_noise/add_salt_and_pepper_noise_colored.py:4-23 | the result is the specified run over the image: same height and width, between h w and 2 h w draws |
| Pictures.Picture.constructor | add_noise/add_salt_and_pepper_noise_grey.py:32 | `Image.new(mode, (width, height))` gives a width x height image filled with the background |
| Pictures.Picture.PutPixel | add_noise/add_salt_and_pepper_noise_grey.py:35 | `putpixel((x, y), v)` sets pixel (x, y) and no other |
| Pictures.ImageToArray | add_noise/add_salt_and_pepper_noise_grey.py:24-27 | row y, column x of the list is `getpixel((x, y))` |
| Pictures.ArrayToImage | add_noise/add_salt_and_pepper_noise_grey.py:29-36 | the new image has pixel (x, y) = a[y][x], and reading it back gives the list |
| Pictures.ImageToArrayColour | add_noise/add_salt_and_pepper_noise_colored.py:25-28 | each pixel with at least three channels (RGB, RGBA) becomes the list of its first three, indexed [y][x]; an RGB pixel is kept whole |
| Pictures.ArrayToImageColour | add_noise/add_salt_and_pepper_noise_colored.py:30-38 | pixel (x, y) is the first three channels of a[y][x]; a list of triples reads back unchanged |
| Pictures.ImageRoundTripColour | add_noise/add_salt_and_pepper_noise_colored.py:25-38 | image to list to image keeps the first three channels of every pixel and drops the rest (the alpha of an RGBA image); an RGB image comes back unchanged |

The uniform and Gaussian scripts carry identical copies of the conversions. They are
at `add_uniform_noise_grey.py` lines 22-34, `add_uniform_noise_colored.py` lines 23-36,
`add_gaussian_noise_grey.py` lines 30-42 and `add_gaussian_noise_colored.py` lines
24-37. The rows above for the salt-and-pepper copies cover them as well.

## Left out

- **Floating point.** All arithmetic is exact. Rounding, float32 against float64,
  nan and inf are not modelled. A zero bandwidth, which divides by zero, is either
  excluded by a `requires` or lies outside the model, as listed under "Sigma
  constraints" below.
- **Exponential and square root.** They are abstract (`ExpLike`, `SqrtLike`): the
  concrete kernel values are not modelled, only the facts the properties need.
- **Solver numerics.** `spla.spsolve` is modelled only for the diagonal D the scripts
  pass it. Convergence of PCG is not claimed. CSR storage internals are left out; an
  entry is the sum of the triplets stored at it.
- **Random numbers.** `random.random`, `random.uniform`, `random.gauss` and the
  Box-Muller `random_gaussian` are not modelled; their outputs are the given `draws`.
- **Max flow.** `nx.maximum_flow` and `nx.minimum_cut` are foreign algorithms. The
  flow dictionary is discarded by the scripts. The source side of the cut is a
  parameter, and minimum cuts are characterised only for single-pixel networks.
- **Other scripts.** Metrics (MSE, PSNR, SSIM, EPI), image decoding and encoding,
  plotting, timing, `print`, and the module-level scripts are not part of this model.
  Neither are the GCN model, the gamma, Poisson and Rayleigh injectors, and the
  Gaussian filters.
- **PIL.** `putpixel`'s clamping and mode conversion are not modelled. Every image
  holds the values it is given.
- **Python aliasing.** The colour salt-and-pepper output shares pixel lists with its
  input. Values are modelled instead, so the aliasing is not visible.
- **Sigma constraints.**
  - Filters.BilateralFilterGrey: requires sigma_s > 0. With sigma_s = 0 the spatial
    exponent divides by zero.
  - Filters.BilateralFilterColour: requires sigma_s > 0, for the same reason.
  - GraphCut.ImageDenoisingBkGrayscale: requires non-zero sigmas, for the same reason.
  - GraphCut.ImageDenoisingBkColorOptimized: requires non-zero sigmas, for the same
    reason.
  - RandomWalk.ComputeWeightMatrix: requires non-zero sigma and alpha, for the same
    reason.
  - Accelerate.ComputeBilateralWeights: takes no sigmas. Both are folded into the
    kernel parameters `spatial` (sigma_s) and `tonal` (sigma_r). With sigma_s = 0 the
    source's `-spatial_diff / (2 * sigma_s**2)` on Python integers raises
    ZeroDivisionError, and that case is outside the model. The only call passes
    sigma_s = 5 and sigma_r = 20.
- **Empty images.**
  - Filters.MedianFilterGrey: requires a non-empty image, because `np.pad` in reflect
    mode rejects an empty axis.
  - Filters.MeanFilterColour: requires a non-empty image, for the same reason.
  - Filters.MedianFilterGrey: also requires a positive kernel size. With size 0 the
    window is empty and numpy's median is nan.
  - Filters.MeanFilterColour: also requires a positive kernel size. With size 0 the
    window is empty and numpy's mean is nan.
  - Noise.AddSaltAndPepperNoise: requires at least one row, because the source reads
    `image_array[0]`.
  - Noise.AddNoiseGrey: requires at least one row, for the same reason.
  - Noise.AddSaltAndPepperNoiseColour: requires at least one row, for the same reason.
  - Pictures.ArrayToImage: requires at least one row, for the same reason.
  - Pictures.ArrayToImageColour: requires at least one row, for the same reason.
  - Filters.BilateralFilterGrey: requires a non-empty image, because
    `np.pad(..., sigma_s, mode='reflect')` rejects an empty axis.
  - Filters.BilateralFilterColour: requires a non-empty image, for the same reason. The
    source never pads an image with no channels and returns an empty array for it.
    The model does not cover that case.
  - GraphCut.ImageDenoisingBkGrayscale: accepts an image with no pixels and returns an
    empty array. The source fails there instead: no node is ever added, so
    `nx.maximum_flow(graph, source, sink)` raises.
  - GraphCut.ImageDenoisingBkColorOptimized: accepts an image with no pixels and returns
    an empty array, where the source's `nx.maximum_flow` raises for the same reason.
  - Noise.AddNoiseColour: requires at least one pixel, for the same reason. It also
    requires every pixel to have as many channels as pixel (0, 0), which is where the
    source reads the count.
- **NumPy 1.x.**
  - Accelerate.RangeNumerator: follows NumPy 2. Under NumPy 1.x, `** 2` on the uint8
    scalar difference promotes to int64. The numerator is then minus the square of the
    wrapped difference: never positive, so the range factor is at most 1.
  - Accelerate.Weight: follows NumPy 2, so `Accelerate.WeightSymmetric` and
    `Accelerate.BilateralMatrixSymmetric` hold for NumPy 2 only. Under NumPy 1.x the
    weight is not symmetric (`Accelerate.LegacyWeightAsymmetric`). The builder and
    matrix lemmas are not restated for the NumPy 1.x weight.
- **The first random-walk graph.**
  - RandomWalk.ComputeWeightMatrix: modelled on real-valued pixels, as in the rebuilds
    from the float32 averages. The scripts' first call passes the raw uint8 image. There
    `diff` wraps and `-diff_norm` wraps as a uint64, so every colour factor is clipped
    to 1 and the first graph is purely spatial. `RandomWalk.ByteAffinitySpatialOnly`
    states this for one pixel pair, but the matrix is not assembled from
    `RandomWalk.ByteAffinity`.
- **Contracts weaker than the source.**
  - Accelerate.ComputeBilateralWeights: the total triplet count (3h - 2)(3w - 2) is not
    stated. The count for every ordered pair is (Accelerate.BilateralEntries).
  - Solvers.PcgDenoising: no convergence or accuracy claim. It states the loop
    skeleton, the residual invariant and the output range.
  - GraphCut.SinglePixelCut: minimum cuts are characterised for one-pixel networks
    only.

## Findings

| source | as written | input that shows it | evidently intended | confidence | as-written member | corrected member |
|---|---|---|---|---|---|---|
| accel/accelerate.py:27-29 | The two pixels are uint8 scalars. Under NumPy 2 scalar promotion, `(a - b)**2` and its negation wrap modulo 256. The intensity exponent is then never negative, and the range factor is at least 1. Under NumPy 1.x only the subtraction wraps, and the weight is not symmetric instead (`Accelerate.LegacyWeightAsymmetric`). | Neighbouring intensities 0 and 1: under NumPy 2 the numerator is 255 instead of -1, so the factor is exp(255 / (2 sigma_r^2)) > 1. Under NumPy 1.x it is -65025 one way and -1 the other. | exp(-(a - b)^2 / (2 sigma_r^2)) on true differences, so every weight lies in (0, 1]. | likely, for the NumPy 2 half; not executed | Accelerate.RangeFactorExceedsOne | Accelerate.IntendedWeightInUnit |
| graph_cutting_denoise/graph_cutting_grey.py:62-63 | The source arc costs dw (255 - I)^2 / 255^2, so dark pixels are expensive to separate from the source. The labelling at line 92 then paints the source side white. | A single pixel of intensity 0: every minimum cut keeps it on the source side, so it becomes 255. Intensity 255 becomes 0. | Source arc dw I^2 / 255^2 and sink arc dw (255 - I)^2 / 255^2, so bright pixels are painted white. | likely; not executed | GraphCut.GreySinglePixelInverted | GraphCut.IntendedGreySinglePixel |
| denoised/bilateral_filter_grey.py:26 | `region - image_array[i, j]` on uint8 arrays wraps modulo 256, and so do its square and its negation. The intensity weight is then at least 1, and grows with the wrapped difference. | A centre of level 1 with a neighbour of level 0: the neighbour weighs exp(255 / (2 (0.1 * 255)^2)) times its spatial weight, more than a neighbour equal to the centre. | exp(-(a - c)^2 / (2 (sigma_r 255)^2)) on true differences, so that similar samples weigh more. | likely; not executed | Filters.BilateralFavoursDissimilar | Filters.IntendedPrefersSimilar |

The builders and filters follow the code as written.
- `Accelerate.IntendedWeight` gives the corrected weight for the bilateral graph.
- `GraphCut.IntendedGreyNetwork` gives the corrected network for the grey graph cut.
- `Filters.IntendedKernel` gives the corrected kernel for the bilateral filters.

Each filter method takes its kernel as a parameter, so either kernel can be passed. The
bounds and shape properties hold for both.
