/** The window filters of the comparison scripts: the k x k median of a grey image,
    the k x k truncated mean of a colour image, and the bilateral filter of a grey and
    of a colour image. Each filter reads a numpy 'reflect'-padded copy of its input and
    fills a fresh uint8 array of the input's shape, pixel by pixel. */
module Filters {
  import opened Numeric
  import opened Grid
  import Accelerate

  /** An h x w uint8 grey image. */
  ghost predicate ByteGrid(g: seq<seq<int>>, h: nat, w: nat)
  {
    IsGrid(g, h, w) && GridWithin(g, 0, 255)
  }

  /** Every cell of a grid lies in [lo, hi]. */
  ghost predicate GridWithin(g: seq<seq<int>>, lo: int, hi: int)
  {
    forall a, b :: 0 <= a < |g| && 0 <= b < |g[a]| ==> lo <= g[a][b] <= hi
  }

  /** Every sample of a window lies in [lo, hi]. */
  ghost predicate AllWithin(s: seq<int>, lo: int, hi: int)
  {
    forall t :: 0 <= t < |s| ==> lo <= s[t] <= hi
  }

  // ---------------------------------------------------------------------------
  // Padding and windows.

  /** `np.pad(g, pad, mode='reflect')` of an h x w grid. */
  function PadReflect(g: seq<seq<int>>, h: nat, w: nat, pad: nat): (p: seq<seq<int>>)
    requires IsGrid(g, h, w) && 0 < h && 0 < w
    ensures IsGrid(p, h + 2 * pad, w + 2 * pad)
  {
    seq(h + 2 * pad, r requires 0 <= r < h + 2 * pad =>
      seq(w + 2 * pad, c requires 0 <= c < w + 2 * pad => g[Reflect(r - pad, h)][Reflect(c - pad, w)]))
  }

  /** The original grid sits unchanged in the middle of the padded one. */
  lemma {:induction false} PadReflectCentre(g: seq<seq<int>>, h: nat, w: nat, pad: nat, i: nat, j: nat)
    requires IsGrid(g, h, w) && i < h && j < w
    ensures PadReflect(g, h, w, pad)[i + pad][j + pad] == g[i][j]
  {
    ReflectInside(i, h);
    ReflectInside(j, w);
  }

  /** Within a pad narrower than the image, the m-th padded row above the image copies
      row m and the m-th padded row below it copies row h-1-m: the edge row is not
      repeated. */
  lemma {:induction false} PadReflectRows(g: seq<seq<int>>, h: nat, w: nat, pad: nat, m: nat, j: nat)
    requires IsGrid(g, h, w) && 0 < m <= pad && m < h && j < w
    ensures PadReflect(g, h, w, pad)[pad - m][j + pad] == g[m][j]
    ensures PadReflect(g, h, w, pad)[pad + h - 1 + m][j + pad] == g[h - 1 - m][j]
  {
    ReflectInside(j, w);
    ReflectMirror(-(m as int), h);
    ReflectMirror(h - 1 + m, h);
  }

  /** The same mirroring on the columns. */
  lemma {:induction false} PadReflectColumns(g: seq<seq<int>>, h: nat, w: nat, pad: nat, i: nat, m: nat)
    requires IsGrid(g, h, w) && 0 < m <= pad && m < w && i < h
    ensures PadReflect(g, h, w, pad)[i + pad][pad - m] == g[i][m]
    ensures PadReflect(g, h, w, pad)[i + pad][pad + w - 1 + m] == g[i][w - 1 - m]
  {
    ReflectInside(i, h);
    ReflectMirror(-(m as int), w);
    ReflectMirror(w - 1 + m, w);
  }

  /** Padding only copies samples, so it keeps every bound of the grid. */
  lemma {:induction false} PadReflectWithin(g: seq<seq<int>>, h: nat, w: nat, pad: nat, lo: int, hi: int)
    requires IsGrid(g, h, w) && 0 < h && 0 < w && GridWithin(g, lo, hi)
    ensures GridWithin(PadReflect(g, h, w, pad), lo, hi)
  {
    var p := PadReflect(g, h, w, pad);
    forall a, b | 0 <= a < |p| && 0 <= b < |p[a]|
      ensures lo <= p[a][b] <= hi
    {
      var r, c := Reflect(a - pad, h), Reflect(b - pad, w);
      assert p[a][b] == g[r][c];
    }
  }

  /** The k x k block `p[i:i+k, j:j+k]`, read row by row. */
  function Region(p: seq<seq<int>>, i: nat, j: nat, k: nat): (r: seq<int>)
    requires i + k <= |p| && forall a :: i <= a < i + k ==> j + k <= |p[a]|
    ensures |r| == k * k
  {
    var rows := seq(k, a requires 0 <= a < k => seq(k, b requires 0 <= b < k => p[i + a][j + b]));
    FlattenLength(rows, k, k);
    Flatten(rows)
  }

  /** Sample (a, b) of the block is padded sample (i + a, j + b). */
  lemma {:induction false} RegionAt(p: seq<seq<int>>, i: nat, j: nat, k: nat, a: nat, b: nat)
    requires i + k <= |p| && forall x :: i <= x < i + k ==> j + k <= |p[x]|
    requires a < k && b < k
    ensures PixelIndex(k, a, b) < k * k && Region(p, i, j, k)[PixelIndex(k, a, b)] == p[i + a][j + b]
  {
    var rows := seq(k, x requires 0 <= x < k => seq(k, y requires 0 <= y < k => p[i + x][j + y]));
    FlattenAt(rows, k, k, a, b);
  }

  /** A block of a grid within [lo, hi] is within [lo, hi]. */
  lemma {:induction false} RegionWithin(p: seq<seq<int>>, i: nat, j: nat, k: nat, lo: int, hi: int)
    requires i + k <= |p| && forall a :: i <= a < i + k ==> j + k <= |p[a]|
    requires GridWithin(p, lo, hi)
    ensures AllWithin(Region(p, i, j, k), lo, hi)
  {
    var rows := seq(k, a requires 0 <= a < k => seq(k, b requires 0 <= b < k => p[i + a][j + b]));
    FlattenAll(rows, x => lo <= x <= hi);
  }

  /** A block has at least one sample when k is positive. */
  lemma {:induction false} RegionNonEmpty(k: nat)
    requires 0 < k
    ensures 0 < k * k
  {
    MulAtLeast(k, k);
  }

  /** The window a k x k filter reads for pixel (i, j): the block of the image padded by
      k // 2 that starts at padded position (i, j). */
  function Window(g: seq<seq<int>>, h: nat, w: nat, k: nat, i: nat, j: nat): (r: seq<int>)
    requires IsGrid(g, h, w) && i < h && j < w
    ensures |r| == k * k
  {
    Region(PadReflect(g, h, w, k / 2), i, j, k)
  }

  /** Sample (a, b) of the window is the image sample at offset (a - k // 2, b - k // 2)
      from (i, j), reflected at the borders. */
  lemma {:induction false} WindowAt(g: seq<seq<int>>, h: nat, w: nat, k: nat, i: nat, j: nat, a: nat, b: nat)
    requires IsGrid(g, h, w) && i < h && j < w && a < k && b < k
    ensures PixelIndex(k, a, b) < k * k
    ensures Window(g, h, w, k, i, j)[PixelIndex(k, a, b)]
         == g[Reflect(i + a - k / 2, h)][Reflect(j + b - k / 2, w)]
  {
    var pad := k / 2;
    assert k <= 2 * pad + 1;
    RegionAt(PadReflect(g, h, w, pad), i, j, k, a, b);
  }

  /** Sample (a, b) of the window of pixel (i, j) is the image sample at offset
      (a - k // 2, b - k // 2) from (i, j), reflected at the borders, and sample
      (k // 2, k // 2) is pixel (i, j) itself. For odd k that is the middle sample, so
      the window is centred on (i, j); for even k it spans offsets -k/2 .. k/2 - 1. */
  lemma {:induction false} WindowCentred(g: seq<seq<int>>, h: nat, w: nat, k: nat, i: nat, j: nat, a: nat, b: nat)
    requires IsGrid(g, h, w) && i < h && j < w && a < k && b < k
    ensures PixelIndex(k, a, b) < k * k && PixelIndex(k, k / 2, k / 2) < k * k
    ensures Window(g, h, w, k, i, j)[PixelIndex(k, a, b)]
         == g[Reflect(i + a - k / 2, h)][Reflect(j + b - k / 2, w)]
    ensures Window(g, h, w, k, i, j)[PixelIndex(k, k / 2, k / 2)] == g[i][j]
  {
    WindowAt(g, h, w, k, i, j, a, b);
    WindowAt(g, h, w, k, i, j, k / 2, k / 2);
    ReflectInside(i, h);
    ReflectInside(j, w);
  }

  /** The window of an image within [lo, hi] is within [lo, hi]. */
  lemma {:induction false} WindowWithin(g: seq<seq<int>>, h: nat, w: nat, k: nat, i: nat, j: nat, lo: int, hi: int)
    requires IsGrid(g, h, w) && i < h && j < w && GridWithin(g, lo, hi)
    ensures AllWithin(Window(g, h, w, k, i, j), lo, hi)
  {
    PadReflectWithin(g, h, w, k / 2, lo, hi);
    RegionWithin(PadReflect(g, h, w, k / 2), i, j, k, lo, hi);
  }

  // ---------------------------------------------------------------------------
  // np.median: order statistics of a window.

  ghost predicate Sorted(s: seq<int>)
  {
    forall x, y :: 0 <= x < y < |s| ==> s[x] <= s[y]
  }

  /** `s` with `x` placed before the first sample not below it. */
  function Insert(x: int, s: seq<int>): (r: seq<int>)
    ensures multiset(r) == multiset(s) + multiset{x} && |r| == |s| + 1
  {
    if s == [] || x <= s[0] then [x] + s
    else
      assert s == [s[0]] + s[1..];
      [s[0]] + Insert(x, s[1..])
  }

  /** Inserting into a sorted window keeps it sorted. */
  lemma {:induction false} InsertSorted(x: int, s: seq<int>)
    requires Sorted(s)
    ensures Sorted(Insert(x, s))
  {
    if s != [] && !(x <= s[0]) {
      var rest := Insert(x, s[1..]);
      InsertSorted(x, s[1..]);
      InsertAbove(x, s[1..], s[0]);
      var r := [s[0]] + rest;
      assert Insert(x, s) == r;
      assert Sorted(r) by {
        forall a, b | 0 <= a < b < |r|
          ensures r[a] <= r[b]
        {
          assert r[b] == rest[b - 1];
          if a > 0 {
            assert r[a] == rest[a - 1];
          }
        }
      }
    }
  }

  /** A lower bound of x and of every sample bounds the samples after inserting x. */
  lemma {:induction false} InsertAbove(x: int, s: seq<int>, lo: int)
    requires lo <= x && forall t :: 0 <= t < |s| ==> lo <= s[t]
    ensures forall t :: 0 <= t < |Insert(x, s)| ==> lo <= Insert(x, s)[t]
  {
    if s != [] && !(x <= s[0]) {
      InsertAbove(x, s[1..], lo);
      assert Insert(x, s) == [s[0]] + Insert(x, s[1..]);
    }
  }

  /** The window in ascending order, as np.median sees it. */
  function Sort(s: seq<int>): (r: seq<int>)
    ensures Sorted(r) && multiset(r) == multiset(s) && |r| == |s|
  {
    if s == [] then []
    else
      assert s == [s[0]] + s[1..];
      InsertSorted(s[0], Sort(s[1..]));
      Insert(s[0], Sort(s[1..]))
  }

  /** Sorting keeps every bound of the samples. */
  lemma {:induction false} SortWithin(s: seq<int>, lo: int, hi: int)
    requires AllWithin(s, lo, hi)
    ensures AllWithin(Sort(s), lo, hi)
  {
    var t := Sort(s);
    forall x | 0 <= x < |t|
      ensures lo <= t[x] <= hi
    {
      assert t[x] in multiset(t);
      assert t[x] in s;
    }
  }

  /** The number of samples at most m. */
  function CountAtMost(s: seq<int>, m: int): nat
  {
    if s == [] then 0 else (if s[0] <= m then 1 else 0) + CountAtMost(s[1..], m)
  }

  /** The number of samples at least m. */
  function CountAtLeast(s: seq<int>, m: int): nat
  {
    if s == [] then 0 else (if m <= s[0] then 1 else 0) + CountAtLeast(s[1..], m)
  }

  lemma {:induction false} InsertCounts(x: int, s: seq<int>, m: int)
    ensures CountAtMost(Insert(x, s), m) == CountAtMost(s, m) + (if x <= m then 1 else 0)
    ensures CountAtLeast(Insert(x, s), m) == CountAtLeast(s, m) + (if m <= x then 1 else 0)
  {
    if s != [] && !(x <= s[0]) {
      InsertCounts(x, s[1..], m);
      var r := [s[0]] + Insert(x, s[1..]);
      assert r[1..] == Insert(x, s[1..]);
    } else {
      assert ([x] + s)[1..] == s;
    }
  }

  /** Sorting does not change how many samples lie on either side of a value. */
  lemma {:induction false} SortCounts(s: seq<int>, m: int)
    ensures CountAtMost(Sort(s), m) == CountAtMost(s, m)
    ensures CountAtLeast(Sort(s), m) == CountAtLeast(s, m)
  {
    if s != [] {
      SortCounts(s[1..], m);
      InsertCounts(s[0], Sort(s[1..]), m);
    }
  }

  /** If the first q samples are at most m, at least q samples are at most m. */
  lemma {:induction false} PrefixAtMost(t: seq<int>, m: int, q: nat)
    requires q <= |t| && forall x :: 0 <= x < q ==> t[x] <= m
    ensures q <= CountAtMost(t, m)
  {
    if q > 0 {
      PrefixAtMost(t[1..], m, q - 1);
    }
  }

  /** If the samples from q on are at least m, at least |t| - q samples are at least m. */
  lemma {:induction false} SuffixAtLeast(t: seq<int>, m: int, q: nat)
    requires q <= |t| && forall x :: q <= x < |t| ==> m <= t[x]
    ensures |t| - q <= CountAtLeast(t, m)
  {
    if t != [] {
      SuffixAtLeast(t[1..], m, if q > 0 then q - 1 else 0);
    }
  }

  /** The two middle-ranked samples of a sorted window each have half the window on
      their side. */
  lemma {:induction false} MiddleRanks(t: seq<int>, x: nat, y: nat)
    requires Sorted(t) && x <= y < |t|
    ensures x + 1 <= CountAtMost(t, t[x])
    ensures |t| - y <= CountAtLeast(t, t[y])
  {
    PrefixAtMost(t, t[x], x + 1);
    SuffixAtLeast(t, t[y], y);
  }

  /** `np.median(region)` stored into a uint8 array: the middle sample of the sorted
      window, or for an even count the mean of the two middle samples, truncated. */
  function Median(r: seq<int>): (m: int)
    requires 0 < |r| && AllWithin(r, 0, 255)
  {
    var t := Sort(r);
    var n := |r|;
    SortWithin(r, 0, 255);
    if n % 2 == 1 then StoreByte(t[n / 2] as real)
    else StoreByte((t[n / 2 - 1] + t[n / 2]) as real / 2.0)
  }

  /** For an odd window the median is one of its samples, and at least half the
      window, rounded up, lies on each side of it. */
  lemma {:induction false} MedianOdd(r: seq<int>)
    requires 0 < |r| && AllWithin(r, 0, 255) && |r| % 2 == 1
    ensures Median(r) in r
    ensures |r| / 2 + 1 <= CountAtMost(r, Median(r))
    ensures |r| / 2 + 1 <= CountAtLeast(r, Median(r))
  {
    var t, n := Sort(r), |r|;
    assert Median(r) == t[n / 2];
    assert t[n / 2] in multiset(t);
    MiddleRanks(t, n / 2, n / 2);
    SortCounts(r, t[n / 2]);
  }

  /** For an even window the median is the truncated mean of two samples x <= y, with
      at least half the window at most x and at least half at least y. */
  lemma {:induction false} MedianEven(r: seq<int>)
    requires 0 < |r| && AllWithin(r, 0, 255) && |r| % 2 == 0
    ensures exists x, y :: (x in r && y in r && x <= y && Median(r) == (x + y) / 2
      && |r| / 2 <= CountAtMost(r, x) && |r| / 2 <= CountAtLeast(r, y))
  {
    var t, n := Sort(r), |r|;
    var x, y := t[n / 2 - 1], t[n / 2];
    SortMember(r, n / 2 - 1);
    SortMember(r, n / 2);
    MedianEvenValue(r);
    MiddleRanks(t, n / 2 - 1, n / 2);
    SortCounts(r, x);
    SortCounts(r, y);
    assert x in r && y in r && x <= y && Median(r) == (x + y) / 2;
  }

  /** Every sample of the sorted window is a sample of the window. */
  lemma {:induction false} SortMember(r: seq<int>, k: nat)
    requires k < |r|
    ensures Sort(r)[k] in r
  {
    assert Sort(r)[k] in multiset(Sort(r));
  }

  /** For an even window the stored median is the integer mean of the two middle
      samples. */
  lemma {:induction false} MedianEvenValue(r: seq<int>)
    requires 0 < |r| && AllWithin(r, 0, 255) && |r| % 2 == 0
    ensures Median(r) == (Sort(r)[|r| / 2 - 1] + Sort(r)[|r| / 2]) / 2
  {
    var t, n := Sort(r), |r|;
    SortWithin(r, 0, 255);
    var x, y := t[n / 2 - 1], t[n / 2];
    var m := StoreByte((x + y) as real / 2.0);
    assert Median(r) == m;
    assert 2 * m <= x + y < 2 * m + 2;
  }

  /** The median lies between any bounds of its window, so between the window's
      minimum and maximum. */
  lemma {:induction false} MedianBounds(r: seq<int>, lo: int, hi: int)
    requires 0 < |r| && AllWithin(r, 0, 255) && AllWithin(r, lo, hi)
    ensures lo <= Median(r) <= hi
  {
    var t, n := Sort(r), |r|;
    SortWithin(r, lo, hi);
    SortWithin(r, 0, 255);
    if n % 2 == 1 {
      assert Median(r) == t[n / 2];
    } else {
      var x, y := t[n / 2 - 1], t[n / 2];
      var m := StoreByte((x + y) as real / 2.0);
      assert Median(r) == m;
      assert 2 * m <= x + y < 2 * m + 2;
    }
  }

  /** Output pixel (i, j) of `median_filter_grey(g, k)`. */
  function MedianAt(g: seq<seq<int>>, h: nat, w: nat, k: nat, i: nat, j: nat): int
    requires ByteGrid(g, h, w) && 0 < k && i < h && j < w
  {
    RegionNonEmpty(k);
    WindowWithin(g, h, w, k, i, j, 0, 255);
    Median(Window(g, h, w, k, i, j))
  }

  /** Every output pixel of the median filter lies between the bounds of the image.
      Taking lo = hi, a constant image comes back unchanged. */
  lemma {:induction false} MedianFilterBounds(g: seq<seq<int>>, h: nat, w: nat, k: nat, lo: int, hi: int)
    requires ByteGrid(g, h, w) && 0 < k && GridWithin(g, lo, hi)
    ensures forall i, j :: 0 <= i < h && 0 <= j < w ==> lo <= MedianAt(g, h, w, k, i, j) <= hi
  {
    forall i, j | 0 <= i < h && 0 <= j < w
      ensures lo <= MedianAt(g, h, w, k, i, j) <= hi
    {
      RegionNonEmpty(k);
      WindowWithin(g, h, w, k, i, j, 0, 255);
      WindowWithin(g, h, w, k, i, j, lo, hi);
      MedianBounds(Window(g, h, w, k, i, j), lo, hi);
    }
  }

  /** `median_filter_grey`: pads the image by k // 2 in reflect mode and writes the
      median of each pixel's k x k window into a fresh array of the image's shape. */
  method MedianFilterGrey(g: seq<seq<int>>, h: nat, w: nat, k: nat) returns (out: array2<int>)
    requires ByteGrid(g, h, w) && 0 < h && 0 < w && 0 < k
    ensures fresh(out) && out.Length0 == h && out.Length1 == w
    ensures forall i, j :: 0 <= i < h && 0 <= j < w ==> out[i, j] == MedianAt(g, h, w, k, i, j)
  {
    var padded := PadReflect(g, h, w, k / 2);
    out := new int[h, w]((_, _) => 0);
    for i := 0 to h
      invariant forall a, b :: 0 <= a < i && 0 <= b < w ==> out[a, b] == MedianAt(g, h, w, k, a, b)
    {
      MedianFilterRow(g, h, w, k, padded, out, i);
    }
  }

  /** One pass of the inner loop: fills row i of `out` and leaves the other rows. */
  method MedianFilterRow(g: seq<seq<int>>, h: nat, w: nat, k: nat, padded: seq<seq<int>>, out: array2<int>, i: nat)
    requires ByteGrid(g, h, w) && 0 < h && 0 < w && 0 < k && i < h
    requires padded == PadReflect(g, h, w, k / 2)
    requires out.Length0 == h && out.Length1 == w
    modifies out
    ensures forall a, b :: 0 <= a < h && 0 <= b < w ==>
      out[a, b] == if a == i then MedianAt(g, h, w, k, a, b) else old(out[a, b])
  {
    for j := 0 to w
      invariant forall a, b :: 0 <= a < h && 0 <= b < w ==>
        out[a, b] == if a == i && b < j then MedianAt(g, h, w, k, a, b) else old(out[a, b])
    {
      var v := MedianOfBlock(g, h, w, k, padded, i, j);
      out[i, j] := v;
    }
  }

  /** The loop body: `np.median` of the k x k block of the padded grid at (i, j). */
  method MedianOfBlock(g: seq<seq<int>>, h: nat, w: nat, k: nat, padded: seq<seq<int>>, i: nat, j: nat) returns (v: int)
    requires ByteGrid(g, h, w) && 0 < k && i < h && j < w && padded == PadReflect(g, h, w, k / 2)
    ensures v == MedianAt(g, h, w, k, i, j)
  {
    assert k <= 2 * (k / 2) + 1;
    RegionNonEmpty(k);
    WindowWithin(g, h, w, k, i, j, 0, 255);
    var region := Region(padded, i, j, k);
    v := Median(region);
  }

  // ---------------------------------------------------------------------------
  // np.mean: the truncated window mean.

  /** The samples as floats. */
  function Reals(s: seq<int>): (r: seq<real>)
    ensures |r| == |s| && forall t :: 0 <= t < |s| ==> r[t] == s[t] as real
  {
    seq(|s|, t requires 0 <= t < |s| => s[t] as real)
  }

  /** A sum of n terms within [lo, hi] lies within [n lo, n hi]. */
  lemma {:induction false} SumBounds(vs: seq<real>, lo: real, hi: real)
    requires Within(vs, lo, hi)
    ensures lo * (|vs| as real) <= Sum(vs) <= hi * (|vs| as real)
  {
    if vs != [] {
      var n := |vs| - 1;
      assert Within(vs[..n], lo, hi);
      SumBounds(vs[..n], lo, hi);
      Distribute(lo, n as real, 1.0);
      Distribute(hi, n as real, 1.0);
    }
  }

  /** `np.mean(region)` stored into a uint8 array. */
  function MeanValue(r: seq<int>): (m: int)
    requires 0 < |r| && AllWithin(r, 0, 255)
  {
    SumBounds(Reals(r), 0.0, 255.0);
    QuotientAtLeast(0.0, Sum(Reals(r)), |r| as real);
    StoreByte(Sum(Reals(r)) / |r| as real)
  }

  /** The stored mean is the floor of the window's sum over its size: m n <= sum <
      (m + 1) n. */
  lemma {:induction false} MeanIsFloor(r: seq<int>)
    requires 0 < |r| && AllWithin(r, 0, 255)
    ensures MeanValue(r) as real * |r| as real <= Sum(Reals(r)) < (MeanValue(r) + 1) as real * |r| as real
  {
    var s, n := Sum(Reals(r)), |r| as real;
    var m := MeanValue(r);
    assert m as real <= s / n < m as real + 1.0;
    QuotientBracket(s, n, m as real);
    assert (m + 1) as real == m as real + 1.0;
  }

  /** The mean lies between any bounds of its window. */
  lemma {:induction false} MeanBounds(r: seq<int>, lo: int, hi: int)
    requires 0 < |r| && AllWithin(r, 0, 255) && AllWithin(r, lo, hi) && 0 <= lo
    ensures lo <= MeanValue(r) <= hi
  {
    var vs := Reals(r);
    assert Within(vs, lo as real, hi as real);
    AverageBounds(vs, lo as real, hi as real);
    StoreByteBetween(Sum(vs) / |r| as real, lo, hi);
  }

  /** The average of values within [lo, hi] is within [lo, hi]. */
  lemma {:induction false} AverageBounds(vs: seq<real>, lo: real, hi: real)
    requires 0 < |vs| && Within(vs, lo, hi)
    ensures lo <= Sum(vs) / |vs| as real <= hi
  {
    SumBounds(vs, lo, hi);
    QuotientAtLeast(lo, Sum(vs), |vs| as real);
    QuotientAtMost(hi, Sum(vs), |vs| as real);
  }

  /** `np.pad(img, ((pad, pad), (pad, pad), (0, 0)), mode='reflect')`: the two spatial
      axes are reflected and the channel axis is left alone. */
  function PadImage(img: seq<seq<seq<int>>>, h: nat, w: nat, nc: nat, pad: nat): (p: seq<seq<seq<int>>>)
    requires IsImage(img, h, w, nc) && 0 < h && 0 < w
    ensures IsImage(p, h + 2 * pad, w + 2 * pad, nc)
  {
    var p := seq(h + 2 * pad, r requires 0 <= r < h + 2 * pad =>
      seq(w + 2 * pad, c requires 0 <= c < w + 2 * pad => img[Reflect(r - pad, h)][Reflect(c - pad, w)]));
    assert forall r, c :: 0 <= r < h + 2 * pad && 0 <= c < w + 2 * pad ==>
      p[r][c] == img[Reflect(r - pad, h)][Reflect(c - pad, w)];
    p
  }

  /** `p[i:i+k, j:j+k, c]`, read row by row. */
  function ChannelRegion(p: seq<seq<seq<int>>>, i: nat, j: nat, k: nat, c: nat): (r: seq<int>)
    requires i + k <= |p| && forall a :: i <= a < i + k ==> j + k <= |p[a]|
    requires forall a, b :: i <= a < i + k && j <= b < j + k ==> c < |p[a][b]|
    ensures |r| == k * k
  {
    var rows := seq(k, a requires 0 <= a < k => seq(k, b requires 0 <= b < k => p[i + a][j + b][c]));
    FlattenLength(rows, k, k);
    Flatten(rows)
  }

  /** Output sample (i, j, c) of `mean_filter_color(img, k)`. */
  function MeanColourAt(img: seq<seq<seq<int>>>, h: nat, w: nat, nc: nat, k: nat, i: nat, j: nat, c: nat): int
    requires ByteImage(img, h, w, nc) && 0 < k && i < h && j < w && c < nc
  {
    var p := PadImage(img, h, w, nc, k / 2);
    var r := ChannelRegion(p, i, j, k, c);
    RegionNonEmpty(k);
    assert AllWithin(r, 0, 255) by { ChannelWindow(img, h, w, nc, k, i, j, c); WindowWithin(Channel(img, h, w, nc, c), h, w, k, i, j, 0, 255); }
    MeanValue(r)
  }

  /** Channel c of the padded colour window is the grey window of channel c alone:
      output channel c reads only input channel c. */
  lemma {:induction false} ChannelWindow(img: seq<seq<seq<int>>>, h: nat, w: nat, nc: nat, k: nat, i: nat, j: nat, c: nat)
    requires IsImage(img, h, w, nc) && 0 < h && 0 < w && i < h && j < w && c < nc
    ensures ChannelRegion(PadImage(img, h, w, nc, k / 2), i, j, k, c) == Window(Channel(img, h, w, nc, c), h, w, k, i, j)
  {
    var pad := k / 2;
    assert k <= 2 * pad + 1;
    var p3 := PadImage(img, h, w, nc, pad);
    var g := Channel(img, h, w, nc, c);
    var p := PadReflect(g, h, w, pad);
    var rows3 := seq(k, a requires 0 <= a < k => seq(k, b requires 0 <= b < k => p3[i + a][j + b][c]));
    var rows := seq(k, a requires 0 <= a < k => seq(k, b requires 0 <= b < k => p[i + a][j + b]));
    forall a | 0 <= a < k
      ensures rows3[a] == rows[a]
    {
      forall b | 0 <= b < k
        ensures rows3[a][b] == rows[a][b]
      {
        PadSampleChannel(img, h, w, nc, pad, i + a, j + b, c);
      }
    }
    assert rows3 == rows;
    assert ChannelRegion(p3, i, j, k, c) == Flatten(rows3);
    assert Window(g, h, w, k, i, j) == Flatten(rows);
  }

  /** Padding commutes with taking a channel. */
  lemma {:induction false} PadSampleChannel(img: seq<seq<seq<int>>>, h: nat, w: nat, nc: nat, pad: nat, r: nat, q: nat, c: nat)
    requires IsImage(img, h, w, nc) && 0 < h && 0 < w && c < nc
    requires r < h + 2 * pad && q < w + 2 * pad
    ensures PadImage(img, h, w, nc, pad)[r][q][c] == PadReflect(Channel(img, h, w, nc, c), h, w, pad)[r][q]
  {
    var x, y := Reflect(r - pad, h), Reflect(q - pad, w);
    assert PadImage(img, h, w, nc, pad)[r][q] == img[x][y];
    assert PadReflect(Channel(img, h, w, nc, c), h, w, pad)[r][q] == Channel(img, h, w, nc, c)[x][y];
  }

  /** Every output sample of the mean filter lies between the bounds of its input
      channel. Taking lo = hi, a constant channel comes back unchanged. */
  lemma {:induction false} MeanFilterBounds(img: seq<seq<seq<int>>>, h: nat, w: nat, nc: nat, k: nat, c: nat, lo: int, hi: int)
    requires ByteImage(img, h, w, nc) && 0 < k && c < nc && 0 <= lo
    requires forall i, j :: 0 <= i < h && 0 <= j < w ==> lo <= img[i][j][c] <= hi
    ensures forall i, j :: 0 <= i < h && 0 <= j < w ==> lo <= MeanColourAt(img, h, w, nc, k, i, j, c) <= hi
  {
    var g := Channel(img, h, w, nc, c);
    assert GridWithin(g, lo, hi);
    forall i, j | 0 <= i < h && 0 <= j < w
      ensures lo <= MeanColourAt(img, h, w, nc, k, i, j, c) <= hi
    {
      RegionNonEmpty(k);
      ChannelWindow(img, h, w, nc, k, i, j, c);
      WindowWithin(g, h, w, k, i, j, 0, 255);
      WindowWithin(g, h, w, k, i, j, lo, hi);
      MeanBounds(Window(g, h, w, k, i, j), lo, hi);
    }
  }

  /** `mean_filter_color`: for each channel, then each pixel, writes the truncated mean
      of the k x k window of the padded image into a fresh array of the image's shape. */
  method MeanFilterColour(img: seq<seq<seq<int>>>, h: nat, w: nat, nc: nat, k: nat) returns (out: array3<int>)
    requires ByteImage(img, h, w, nc) && 0 < h && 0 < w && 0 < k
    ensures fresh(out) && out.Length0 == h && out.Length1 == w && out.Length2 == nc
    ensures forall i, j, c :: 0 <= i < h && 0 <= j < w && 0 <= c < nc ==> out[i, j, c] == MeanColourAt(img, h, w, nc, k, i, j, c)
  {
    var padded := PadImage(img, h, w, nc, k / 2);
    out := new int[h, w, nc]((_, _, _) => 0);
    for c := 0 to nc
      invariant forall a, b, d :: 0 <= a < h && 0 <= b < w && 0 <= d < c ==> out[a, b, d] == MeanColourAt(img, h, w, nc, k, a, b, d)
    {
      MeanFilterChannel(img, h, w, nc, k, padded, out, c);
    }
  }

  /** One pass of the middle loop: fills channel c of `out` and leaves the others. */
  method MeanFilterChannel(img: seq<seq<seq<int>>>, h: nat, w: nat, nc: nat, k: nat, padded: seq<seq<seq<int>>>, out: array3<int>, c: nat)
    requires ByteImage(img, h, w, nc) && 0 < h && 0 < w && 0 < k && c < nc
    requires padded == PadImage(img, h, w, nc, k / 2)
    requires out.Length0 == h && out.Length1 == w && out.Length2 == nc
    modifies out
    ensures forall a, b, d :: 0 <= a < h && 0 <= b < w && 0 <= d < nc ==>
      out[a, b, d] == if d == c then MeanColourAt(img, h, w, nc, k, a, b, c) else old(out[a, b, d])
  {
    for i := 0 to h
      invariant forall a, b, d :: 0 <= a < h && 0 <= b < w && 0 <= d < nc ==>
        out[a, b, d] == if d == c && a < i then MeanColourAt(img, h, w, nc, k, a, b, c) else old(out[a, b, d])
    {
      MeanFilterRow(img, h, w, nc, k, padded, out, c, i);
    }
  }

  /** One pass of the inner loop: fills row i of channel c and leaves the rest. */
  method MeanFilterRow(img: seq<seq<seq<int>>>, h: nat, w: nat, nc: nat, k: nat, padded: seq<seq<seq<int>>>, out: array3<int>, c: nat, i: nat)
    requires ByteImage(img, h, w, nc) && 0 < h && 0 < w && 0 < k && c < nc && i < h
    requires padded == PadImage(img, h, w, nc, k / 2)
    requires out.Length0 == h && out.Length1 == w && out.Length2 == nc
    modifies out
    ensures forall a, b, d :: 0 <= a < h && 0 <= b < w && 0 <= d < nc ==>
      out[a, b, d] == if d == c && a == i then MeanColourAt(img, h, w, nc, k, a, b, c) else old(out[a, b, d])
  {
    for j := 0 to w
      invariant forall a, b, d :: 0 <= a < h && 0 <= b < w && 0 <= d < nc ==>
        out[a, b, d] == if d == c && a == i && b < j then MeanColourAt(img, h, w, nc, k, a, b, c) else old(out[a, b, d])
    {
      var v := MeanOfBlock(img, h, w, nc, k, padded, i, j, c);
      out[i, j, c] := v;
    }
  }

  /** The loop body: `np.mean` of channel c of the k x k block of the padded image at
      (i, j), stored as a byte. */
  method MeanOfBlock(img: seq<seq<seq<int>>>, h: nat, w: nat, nc: nat, k: nat, padded: seq<seq<seq<int>>>, i: nat, j: nat, c: nat)
    returns (v: int)
    requires ByteImage(img, h, w, nc) && 0 < k && i < h && j < w && c < nc && padded == PadImage(img, h, w, nc, k / 2)
    ensures v == MeanColourAt(img, h, w, nc, k, i, j, c)
  {
    assert k <= 2 * (k / 2) + 1;
    RegionNonEmpty(k);
    ChannelWindow(img, h, w, nc, k, i, j, c);
    WindowWithin(Channel(img, h, w, nc, c), h, w, k, i, j, 0, 255);
    var region := ChannelRegion(padded, i, j, k, c);
    v := MeanValue(region);
  }

  // ---------------------------------------------------------------------------
  // The bilateral filter.

  /** A bilateral kernel: wf(di, dj, a, b) weighs a window sample of value a at offset
      (di, dj) from a centre of value b. Every weight is positive and the centre
      sample weighs 1. */
  ghost predicate Kernel(wf: (int, int, int, int) -> real)
  {
    (forall di, dj, a, b :: 0.0 < wf(di, dj, a, b)) && (forall a :: wf(0, 0, a, a) == 1.0)
  }

  lemma {:induction false} KernelPositive(wf: (int, int, int, int) -> real, di: int, dj: int, a: int, b: int)
    requires Kernel(wf)
    ensures 0.0 < wf(di, dj, a, b)
  {
  }

  /** `spatial_weights * intensity_weights` as the filter evaluates them. `spatial` is
      the exponential scaled by 2 sigma_s**2, and `tonal` the one scaled by
      2 (sigma_r 255)**2. The region and the centre pixel are uint8 values, so the
      square of their difference and its negation wrap modulo 256. */
  function SourceKernel(spatial: real -> real, tonal: real -> real): (int, int, int, int) -> real
  {
    (di, dj, a, b) => Accelerate.Weight(spatial, tonal, di, dj, a, b)
  }

  /** The kernel the filter calls for: exp(-(di**2 + dj**2) / (2 sigma_s**2)) times
      exp(-(a - b)**2 / (2 (sigma_r 255)**2)) on true differences. */
  function IntendedKernel(spatial: real -> real, tonal: real -> real): (int, int, int, int) -> real
  {
    (di, dj, a, b) => Accelerate.IntendedWeight(spatial, tonal, di, dj, a, b)
  }

  lemma {:induction false} SourceKernelIsKernel(spatial: real -> real, tonal: real -> real)
    requires ExpLike(spatial) && ExpLike(tonal)
    ensures Kernel(SourceKernel(spatial, tonal))
  {
    var wf := SourceKernel(spatial, tonal);
    forall di, dj, a, b
      ensures 0.0 < wf(di, dj, a, b)
    {
      Accelerate.WeightPositive(spatial, tonal, di, dj, a, b);
    }
    forall a
      ensures wf(0, 0, a, a) == 1.0
    {
      Accelerate.WeightPositive(spatial, tonal, 0, 0, a, a);
    }
  }

  lemma {:induction false} IntendedKernelIsKernel(spatial: real -> real, tonal: real -> real)
    requires ExpLike(spatial) && ExpLike(tonal)
    ensures Kernel(IntendedKernel(spatial, tonal))
  {
    var wf := IntendedKernel(spatial, tonal);
    forall di, dj, a, b
      ensures 0.0 < wf(di, dj, a, b)
    {
      Accelerate.IntendedWeightInUnit(spatial, tonal, di, dj, a, b);
    }
    forall a
      ensures wf(0, 0, a, a) == 1.0
    {
      Accelerate.IntendedSelfWeight(spatial, tonal, a);
    }
  }

  /** As written, around a centre of grey level 1 a black neighbour outweighs a
      neighbour equal to the centre at the same offset: the range kernel rewards
      difference. */
  lemma {:induction false} BilateralFavoursDissimilar(spatial: real -> real, tonal: real -> real, di: int, dj: int)
    requires ExpLike(spatial) && ExpLike(tonal)
    ensures SourceKernel(spatial, tonal)(di, dj, 1, 1) < SourceKernel(spatial, tonal)(di, dj, 0, 1)
  {
    Accelerate.RangeFactorExceedsOne(tonal);
    assert Accelerate.RangeNumerator(1, 1) == 0;
    ExpFactorOrder(spatial, tonal, -(SpatialDiff((di, dj)) as real), 255.0);
  }

  /** A spatial factor times the tonal factor at a positive exponent exceeds the same
      spatial factor times the tonal factor at 0. */
  lemma {:induction false} ExpFactorOrder(spatial: real -> real, tonal: real -> real, u: real, v: real)
    requires ExpLike(spatial) && ExpLike(tonal) && 0.0 < v
    ensures spatial(u) * tonal(0.0) < spatial(u) * tonal(v)
  {
    assert 0.0 < spatial(u);
    assert 1.0 < tonal(v) by { ExpAboveOne(tonal, v); }
    GrowsByFactor(spatial(u), tonal(v));
  }

  /** With the intended kernel a sample closer in value to the centre never weighs
      less than one farther away at the same offset. */
  lemma {:induction false} IntendedPrefersSimilar(spatial: real -> real, tonal: real -> real, di: int, dj: int, a: int, b: int, c: int)
    requires ExpLike(spatial) && ExpLike(tonal) && (a - c) * (a - c) <= (b - c) * (b - c)
    ensures IntendedKernel(spatial, tonal)(di, dj, b, c) <= IntendedKernel(spatial, tonal)(di, dj, a, c)
  {
    IntendedWeightOrder(spatial, tonal, di, dj, a, b, c);
  }

  lemma {:induction false} IntendedWeightOrder(spatial: real -> real, tonal: real -> real, di: int, dj: int, a: int, b: int, c: int)
    requires ExpLike(spatial) && ExpLike(tonal)
    requires Accelerate.IntendedRangeNumerator(b, c) <= Accelerate.IntendedRangeNumerator(a, c)
    ensures Accelerate.IntendedWeight(spatial, tonal, di, dj, b, c) <= Accelerate.IntendedWeight(spatial, tonal, di, dj, a, c)
  {
    OffsetWeightMonotone(spatial, tonal, di, dj, Accelerate.IntendedRangeNumerator(b, c), Accelerate.IntendedRangeNumerator(a, c));
  }

  /** At a fixed offset the weight grows with the tonal numerator. */
  lemma {:induction false} OffsetWeightMonotone(spatial: real -> real, tonal: real -> real, di: int, dj: int, m: int, n: int)
    requires ExpLike(spatial) && ExpLike(tonal) && m <= n
    ensures Accelerate.OffsetWeight(spatial, tonal, di, dj, m) <= Accelerate.OffsetWeight(spatial, tonal, di, dj, n)
  {
    var x := spatial(-(SpatialDiff((di, dj)) as real));
    assert 0.0 < x;
    TonalMonotone(tonal, m as real, n as real);
    MulMonotone(x, tonal(m as real), tonal(n as real));
    assert Accelerate.OffsetWeight(spatial, tonal, di, dj, m) == x * tonal(m as real);
    assert Accelerate.OffsetWeight(spatial, tonal, di, dj, n) == x * tonal(n as real);
  }

  lemma {:induction false} TonalMonotone(tonal: real -> real, u: real, v: real)
    requires ExpLike(tonal) && u <= v
    ensures tonal(u) <= tonal(v)
  {
    if u < v {
      assert tonal(u) < tonal(v);
    }
  }

  /** The weights of the window for (i, j) of the padded grid `p`, in the order of
      `Region`: window sample (a, b) sits at offset (a - s, b - s) from the centre. */
  function WindowWeights(wf: (int, int, int, int) -> real, p: seq<seq<int>>, i: nat, j: nat, s: nat, centre: int): (ws: seq<real>)
    requires i + (2 * s + 1) <= |p| && forall a :: i <= a < i + (2 * s + 1) ==> j + (2 * s + 1) <= |p[a]|
    ensures |ws| == (2 * s + 1) * (2 * s + 1)
  {
    var k := 2 * s + 1;
    var rows := seq(k, a requires 0 <= a < k => seq(k, b requires 0 <= b < k => wf(a - s, b - s, p[i + a][j + b], centre)));
    FlattenLength(rows, k, k);
    Flatten(rows)
  }

  /** All weights are positive; the centre sample, equal to the centre pixel, weighs
      1, so the total weight is at least 1 and the division never divides by zero. */
  lemma {:induction false} WindowWeightsCentre(wf: (int, int, int, int) -> real, p: seq<seq<int>>, i: nat, j: nat, s: nat, centre: int)
    requires i + (2 * s + 1) <= |p| && forall a :: i <= a < i + (2 * s + 1) ==> j + (2 * s + 1) <= |p[a]|
    requires Kernel(wf) && p[i + s][j + s] == centre
    ensures forall t :: 0 <= t < |WindowWeights(wf, p, i, j, s, centre)| ==> 0.0 < WindowWeights(wf, p, i, j, s, centre)[t]
    ensures PixelIndex(2 * s + 1, s, s) < (2 * s + 1) * (2 * s + 1)
    ensures WindowWeights(wf, p, i, j, s, centre)[PixelIndex(2 * s + 1, s, s)] == 1.0
    ensures 1.0 <= Sum(WindowWeights(wf, p, i, j, s, centre))
  {
    var k := 2 * s + 1;
    var rows := seq(k, a requires 0 <= a < k => seq(k, b requires 0 <= b < k => wf(a - s, b - s, p[i + a][j + b], centre)));
    var ws := WindowWeights(wf, p, i, j, s, centre);
    forall a, b | 0 <= a < |rows| && 0 <= b < |rows[a]|
      ensures 0.0 < rows[a][b]
    {
      assert rows[a][b] == wf(a - s, b - s, p[i + a][j + b], centre);
      KernelPositive(wf, a - s, b - s, p[i + a][j + b], centre);
    }
    FlattenAll(rows, x => 0.0 < x);
    FlattenAt(rows, k, k, s, s);
    assert rows[s][s] == wf(0, 0, centre, centre);
    assert NonNegative(ws);
    SumAtLeastTerm(ws, PixelIndex(k, s, s));
  }

  /** `np.sum(weights * region) / np.sum(weights)` stored into a uint8 array. */
  function NormalisedMean(ws: seq<real>, vs: seq<int>): int
    requires |ws| == |vs| && NonNegative(ws) && 0.0 < Sum(ws) && AllWithin(vs, 0, 255)
  {
    WeightedMeanBounds(ws, Reals(vs), 0.0, 255.0);
    StoreByte(Dot(ws, Reals(vs)) / Sum(ws))
  }

  /** The normalised mean is a convex combination of the window, so it lies between
      any bounds of the window. */
  lemma {:induction false} NormalisedMeanBounds(ws: seq<real>, vs: seq<int>, lo: int, hi: int)
    requires |ws| == |vs| && NonNegative(ws) && 0.0 < Sum(ws) && AllWithin(vs, 0, 255)
    requires AllWithin(vs, lo, hi) && 0 <= lo
    ensures lo <= NormalisedMean(ws, vs) <= hi
  {
    WeightedMeanBounds(ws, Reals(vs), lo as real, hi as real);
    StoreByteBetween(Dot(ws, Reals(vs)) / Sum(ws), lo, hi);
  }

  /** Output pixel (i, j) of the bilateral filter with kernel wf and window radius s. */
  function BilateralAt(wf: (int, int, int, int) -> real, g: seq<seq<int>>, h: nat, w: nat, s: nat, i: nat, j: nat): int
    requires Kernel(wf) && ByteGrid(g, h, w) && i < h && j < w
  {
    var p := PadReflect(g, h, w, s);
    var ws := WindowWeights(wf, p, i, j, s, g[i][j]);
    var vs := Window(g, h, w, 2 * s + 1, i, j);
    PadReflectCentre(g, h, w, s, i, j);
    WindowWeightsCentre(wf, p, i, j, s, g[i][j]);
    WindowWithin(g, h, w, 2 * s + 1, i, j, 0, 255);
    NormalisedMean(ws, vs)
  }

  /** The loop body: the spatial and intensity weights of the block of the padded grid
      at (i, j), and the weighted mean of the block stored as a byte. */
  method BilateralOfBlock(wf: (int, int, int, int) -> real, g: seq<seq<int>>, h: nat, w: nat, s: nat, padded: seq<seq<int>>, i: nat, j: nat,
                          ghost want: seq<int>)
    returns (v: int)
    requires Kernel(wf) && ByteGrid(g, h, w) && i < h && j < w && padded == PadReflect(g, h, w, s)
    requires |want| == w && forall b {:trigger BilateralAt(wf, g, h, w, s, i, b)} :: 0 <= b < w ==> BilateralAt(wf, g, h, w, s, i, b) == want[b]
    ensures v == want[j]
  {
    assert (2 * s + 1) / 2 == s;
    var region := Region(padded, i, j, 2 * s + 1);
    assert region == Window(g, h, w, 2 * s + 1, i, j);
    WindowWithin(g, h, w, 2 * s + 1, i, j, 0, 255);
    PadReflectCentre(g, h, w, s, i, j);
    var weights := WindowWeights(wf, padded, i, j, s, g[i][j]);
    WindowWeightsCentre(wf, padded, i, j, s, g[i][j]);
    v := NormalisedMean(weights, region);
    assert v == BilateralAt(wf, g, h, w, s, i, j);
  }

  /** Every output pixel of the bilateral filter lies between the bounds of the image.
      Taking lo = hi, a constant image comes back unchanged. */
  lemma {:induction false} BilateralBounds(wf: (int, int, int, int) -> real, g: seq<seq<int>>, h: nat, w: nat, s: nat, lo: int, hi: int)
    requires Kernel(wf) && ByteGrid(g, h, w) && GridWithin(g, lo, hi) && 0 <= lo
    ensures forall i, j :: 0 <= i < h && 0 <= j < w ==> lo <= BilateralAt(wf, g, h, w, s, i, j) <= hi
  {
    forall i, j | 0 <= i < h && 0 <= j < w
      ensures lo <= BilateralAt(wf, g, h, w, s, i, j) <= hi
    {
      var p := PadReflect(g, h, w, s);
      PadReflectCentre(g, h, w, s, i, j);
      WindowWeightsCentre(wf, p, i, j, s, g[i][j]);
      WindowWithin(g, h, w, 2 * s + 1, i, j, 0, 255);
      WindowWithin(g, h, w, 2 * s + 1, i, j, lo, hi);
      NormalisedMeanBounds(WindowWeights(wf, p, i, j, s, g[i][j]), Window(g, h, w, 2 * s + 1, i, j), lo, hi);
    }
  }

  /** `bilateral_filter_grey`: pads the image by sigma_s in reflect mode and writes the
      normalised weighted mean of each pixel's (2 sigma_s + 1)**2 window into a fresh
      array of the image's shape. */
  method BilateralFilterGrey(wf: (int, int, int, int) -> real, g: seq<seq<int>>, h: nat, w: nat, s: nat) returns (out: array2<int>)
    requires Kernel(wf) && ByteGrid(g, h, w) && 0 < h && 0 < w && 0 < s
    ensures fresh(out) && out.Length0 == h && out.Length1 == w
    ensures forall i, j :: 0 <= i < h && 0 <= j < w ==> out[i, j] == BilateralAt(wf, g, h, w, s, i, j)
  {
    out := new int[h, w]((_, _) => 0);
    var padded := PadReflect(g, h, w, s);
    for i := 0 to h
      invariant forall a, b :: 0 <= a < i && 0 <= b < w ==> out[a, b] == BilateralAt(wf, g, h, w, s, a, b)
    {
      ghost var want := seq(w, b requires 0 <= b < w => BilateralAt(wf, g, h, w, s, i, b));
      BilateralRow(wf, g, h, w, s, padded, out, i, want);
    }
  }

  /** One pass of the inner loop: fills row i of `out` with the filtered row `want`
      and leaves the other rows. */
  method BilateralRow(wf: (int, int, int, int) -> real, g: seq<seq<int>>, h: nat, w: nat, s: nat, padded: seq<seq<int>>, out: array2<int>, i: nat,
                      ghost want: seq<int>)
    requires Kernel(wf) && ByteGrid(g, h, w) && 0 < h && 0 < w && i < h
    requires padded == PadReflect(g, h, w, s)
    requires out.Length0 == h && out.Length1 == w
    requires |want| == w && forall b {:trigger BilateralAt(wf, g, h, w, s, i, b)} :: 0 <= b < w ==> BilateralAt(wf, g, h, w, s, i, b) == want[b]
    modifies out
    ensures forall a, b :: 0 <= a < h && 0 <= b < w ==>
      out[a, b] == if a == i then want[b] else old(out[a, b])
  {
    for j := 0 to w
      invariant forall a, b :: 0 <= a < h && 0 <= b < w ==>
        out[a, b] == if a == i && b < j then want[b] else old(out[a, b])
    {
      var v := BilateralOfBlock(wf, g, h, w, s, padded, i, j, want);
      out[i, j] := v;
    }
  }

  /** `bilateral_filter_color`: for each channel, filters that channel alone with the
      grey algorithm; output channel c reads only input channel c. */
  method BilateralFilterColour(wf: (int, int, int, int) -> real, img: seq<seq<seq<int>>>, h: nat, w: nat, nc: nat, s: nat) returns (out: array3<int>)
    requires Kernel(wf) && ByteImage(img, h, w, nc) && 0 < h && 0 < w && 0 < s
    ensures fresh(out) && out.Length0 == h && out.Length1 == w && out.Length2 == nc
    ensures forall i, j, c :: 0 <= i < h && 0 <= j < w && 0 <= c < nc ==>
      out[i, j, c] == BilateralAt(wf, Channel(img, h, w, nc, c), h, w, s, i, j)
  {
    out := new int[h, w, nc]((_, _, _) => 0);
    for c := 0 to nc
      invariant forall a, b, d :: 0 <= a < h && 0 <= b < w && 0 <= d < c ==>
        out[a, b, d] == BilateralAt(wf, Channel(img, h, w, nc, d), h, w, s, a, b)
    {
      var channel := Channel(img, h, w, nc, c);
      var padded := PadReflect(channel, h, w, s);
      for i := 0 to h
        invariant forall a, b, d :: 0 <= a < h && 0 <= b < w && 0 <= d < nc && (d < c || (d == c && a < i)) ==>
          out[a, b, d] == BilateralAt(wf, Channel(img, h, w, nc, d), h, w, s, a, b)
      {
        ghost var want := seq(w, b requires 0 <= b < w => BilateralAt(wf, channel, h, w, s, i, b));
        BilateralColourRow(wf, channel, h, w, nc, s, padded, out, c, i, want);
      }
    }
  }

  /** One pass of the innermost loop: fills row i of channel c from the padded channel
      and leaves the rest of `out`. */
  method BilateralColourRow(wf: (int, int, int, int) -> real, g: seq<seq<int>>, h: nat, w: nat, nc: nat, s: nat,
                            padded: seq<seq<int>>, out: array3<int>, c: nat, i: nat, ghost want: seq<int>)
    requires Kernel(wf) && ByteGrid(g, h, w) && 0 < h && 0 < w && i < h && c < nc
    requires padded == PadReflect(g, h, w, s)
    requires out.Length0 == h && out.Length1 == w && out.Length2 == nc
    requires |want| == w && forall b {:trigger BilateralAt(wf, g, h, w, s, i, b)} :: 0 <= b < w ==> BilateralAt(wf, g, h, w, s, i, b) == want[b]
    modifies out
    ensures forall a, b, d :: 0 <= a < h && 0 <= b < w && 0 <= d < nc ==>
      out[a, b, d] == if a == i && d == c then want[b] else old(out[a, b, d])
  {
    for j := 0 to w
      invariant forall a, b, d :: 0 <= a < h && 0 <= b < w && 0 <= d < nc ==>
        out[a, b, d] == if a == i && d == c && b < j then want[b] else old(out[a, b, d])
    {
      var v := BilateralOfBlock(wf, g, h, w, s, padded, i, j, want);
      out[i, j, c] := v;
    }
  }
}
