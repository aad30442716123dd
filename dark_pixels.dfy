/*
 * Repair of near-black pixels before the advanced random walk: every pixel whose
 * largest channel is below a threshold is replaced by the truncated mean of its
 * bright 8-neighbours, or by mid grey when it has none. Neighbours are always read
 * from the input, so the order of the scan does not matter.
 */
module DarkPixels {
  import opened Grid

  /** `np.max` of a pixel: a channel value no channel exceeds. */
  function PixelMax(px: seq<int>): (m: int)
    requires |px| > 0
    ensures forall c :: 0 <= c < |px| ==> px[c] <= m
    ensures exists c :: 0 <= c < |px| && px[c] == m
  {
    if |px| == 1 then px[0]
    else
      var m := PixelMax(px[..|px| - 1]);
      if px[|px| - 1] > m then px[|px| - 1] else m
  }

  /** `np.max(px) < threshold`: every channel is below the threshold. */
  predicate Dark(px: seq<int>, threshold: int): (b: bool)
    requires |px| > 0
    ensures b <==> forall c :: 0 <= c < |px| ==> px[c] < threshold
  {
    PixelMax(px) < threshold
  }

  /** The eight neighbour offsets, in the order the scan visits them. */
  const Ring: seq<(int, int)> := [(-1, -1), (-1, 0), (-1, 1), (0, -1), (0, 1), (1, -1), (1, 0), (1, 1)]

  /** Offset k leads from (i, j) to a pixel inside the image. */
  ghost predicate IsNeighbour(h: nat, w: nat, i: int, j: int, k: int)
  {
    0 <= k < |Ring| && InBounds(h, w, i + Ring[k].0, j + Ring[k].1)
  }

  /** The pixel offset k leads to. */
  function Around(image: seq<seq<seq<int>>>, h: nat, w: nat, i: int, j: int, k: int): seq<int>
    requires IsImage(image, h, w, 3) && IsNeighbour(h, w, i, j, k)
  {
    image[i + Ring[k].0][j + Ring[k].1]
  }

  /** The neighbours the first k offsets contribute, in visiting order. */
  function NeighboursUpTo(image: seq<seq<seq<int>>>, h: nat, w: nat, i: int, j: int, k: nat): (ns: seq<seq<int>>)
    requires IsImage(image, h, w, 3) && k <= |Ring|
    ensures |ns| <= k
    ensures forall x :: 0 <= x < |ns| ==> |ns[x]| == 3
  {
    if k == 0 then []
    else
      var prev := NeighboursUpTo(image, h, w, i, j, k - 1);
      if IsNeighbourAt(h, w, i, j, k - 1) then prev + [image[i + Ring[k - 1].0][j + Ring[k - 1].1]] else prev
  }

  /** The compiled form of `IsNeighbour`, for offsets that exist. */
  predicate IsNeighbourAt(h: nat, w: nat, i: int, j: int, k: nat)
    requires k < |Ring|
  {
    0 <= i + Ring[k].0 < h && 0 <= j + Ring[k].1 < w
  }

  /** The list `neighbors` of the source: the in-bounds 8-neighbours of (i, j). */
  function Neighbours(image: seq<seq<seq<int>>>, h: nat, w: nat, i: int, j: int): seq<seq<int>>
    requires IsImage(image, h, w, 3)
  {
    NeighboursUpTo(image, h, w, i, j, |Ring|)
  }

  /** Pixel px is what one of the first k offsets leads to. */
  ghost predicate FromRing(image: seq<seq<seq<int>>>, h: nat, w: nat, i: int, j: int, k: nat, px: seq<int>)
    requires IsImage(image, h, w, 3)
  {
    exists m :: 0 <= m < k && IsNeighbour(h, w, i, j, m) && px == Around(image, h, w, i, j, m)
  }

  /** The first k offsets contribute exactly the pixels of those that stay in the image. */
  lemma {:induction false} NeighboursUpToMembers(image: seq<seq<seq<int>>>, h: nat, w: nat, i: int, j: int, k: nat)
    requires IsImage(image, h, w, 3) && k <= |Ring|
    ensures var ns := NeighboursUpTo(image, h, w, i, j, k);
      (forall x :: 0 <= x < |ns| ==> FromRing(image, h, w, i, j, k, ns[x])) &&
      (forall m :: 0 <= m < k && IsNeighbour(h, w, i, j, m) ==> Around(image, h, w, i, j, m) in ns)
  {
    if 0 < k {
      NeighboursUpToMembers(image, h, w, i, j, k - 1);
      var prev, ns := NeighboursUpTo(image, h, w, i, j, k - 1), NeighboursUpTo(image, h, w, i, j, k);
      if IsNeighbourAt(h, w, i, j, k - 1) {
        assert ns == prev + [Around(image, h, w, i, j, k - 1)];
      }
      forall x | 0 <= x < |ns|
        ensures FromRing(image, h, w, i, j, k, ns[x])
      {
        if x < |prev| {
          assert FromRing(image, h, w, i, j, k - 1, prev[x]);
          var m :| 0 <= m < k - 1 && IsNeighbour(h, w, i, j, m) && prev[x] == Around(image, h, w, i, j, m);
          assert ns[x] == Around(image, h, w, i, j, m);
        } else {
          assert IsNeighbour(h, w, i, j, k - 1) && ns[x] == Around(image, h, w, i, j, k - 1);
        }
      }
    }
  }

  /** The neighbour list holds the pixel of every offset inside the image and nothing else. */
  lemma {:induction false} NeighboursMembers(image: seq<seq<seq<int>>>, h: nat, w: nat, i: int, j: int)
    requires IsImage(image, h, w, 3)
    ensures var ns := Neighbours(image, h, w, i, j);
      (forall x :: 0 <= x < |ns| ==> FromRing(image, h, w, i, j, |Ring|, ns[x])) &&
      (forall m :: IsNeighbour(h, w, i, j, m) ==> Around(image, h, w, i, j, m) in ns)
  {
    NeighboursUpToMembers(image, h, w, i, j, |Ring|);
    assert Neighbours(image, h, w, i, j) == NeighboursUpTo(image, h, w, i, j, |Ring|);
  }

  /** A pixel away from the border has all eight neighbours, one per offset. */
  lemma {:induction false} InteriorNeighbours(image: seq<seq<seq<int>>>, h: nat, w: nat, i: int, j: int)
    requires IsImage(image, h, w, 3) && 0 < i && i + 1 < h && 0 < j && j + 1 < w
    ensures |Neighbours(image, h, w, i, j)| == 8
  {
    var k := 0;
    while k < |Ring|
      invariant k <= |Ring| && |NeighboursUpTo(image, h, w, i, j, k)| == k
    {
      k := k + 1;
    }
  }

  /** The list comprehension keeping the neighbours with `np.max(n) >= threshold`. */
  function Brights(ns: seq<seq<int>>, threshold: int): (bs: seq<seq<int>>)
    requires forall x :: 0 <= x < |ns| ==> |ns[x]| == 3
    ensures forall x :: 0 <= x < |bs| ==> |bs[x]| == 3 && !Dark(bs[x], threshold) && bs[x] in ns
    ensures forall x :: 0 <= x < |ns| && !Dark(ns[x], threshold) ==> ns[x] in bs
  {
    if ns == [] then []
    else
      var rest := Brights(ns[1..], threshold);
      assert forall x :: 1 <= x < |ns| ==> ns[x] == ns[1..][x - 1];
      if Dark(ns[0], threshold) then rest else [ns[0]] + rest
  }

  /** Channel c summed over a list of pixels. */
  function ChannelSum(ns: seq<seq<int>>, c: nat): int
    requires forall x :: 0 <= x < |ns| ==> c < |ns[x]|
  {
    if ns == [] then 0 else ChannelSum(ns[..|ns| - 1], c) + ns[|ns| - 1][c]
  }

  /** A sum of n values in [lo, hi] lies in [n * lo, n * hi]. */
  lemma {:induction false} ChannelSumBounds(ns: seq<seq<int>>, c: nat, lo: int, hi: int)
    requires forall x :: 0 <= x < |ns| ==> c < |ns[x]| && lo <= ns[x][c] <= hi
    ensures |ns| * lo <= ChannelSum(ns, c) <= |ns| * hi
  {
    if ns != [] {
      ChannelSumBounds(ns[..|ns| - 1], c, lo, hi);
      assert |ns| * lo == (|ns| - 1) * lo + lo;
      assert |ns| * hi == (|ns| - 1) * hi + hi;
    }
  }

  /** Truncating a quotient whose dividend lies in [n * lo, n * hi] lands in [lo, hi]. */
  lemma {:induction false} QuotientBetween(s: int, n: int, lo: int, hi: int)
    requires 0 < n && n * lo <= s <= n * hi
    ensures lo <= s / n <= hi
  {
    var q := s / n;
    assert s == n * q + s % n;
    if q < lo {
      ScaleMonotone(n, q + 1, lo);
    }
    if hi < q {
      ScaleMonotone(n, hi + 1, q);
    }
  }

  lemma {:induction false} ScaleMonotone(n: int, a: int, b: int)
    requires 0 < n && a <= b
    ensures n * a <= n * b
  {
    assert n * b - n * a == n * (b - a);
  }

  /** `np.mean(neighbors, axis=0)` stored into the uint8 image: each channel's mean,
      truncated. */
  function MeanPixel(ns: seq<seq<int>>): seq<int>
    requires |ns| > 0 && forall x :: 0 <= x < |ns| ==> |ns[x]| == 3
  {
    seq(3, c requires 0 <= c < 3 => ChannelSum(ns, c) / |ns|)
  }

  /** Each channel of the mean lies between the least and the greatest value the
      averaged pixels hold in that channel. */
  lemma {:induction false} MeanWithin(ns: seq<seq<int>>, c: nat, lo: int, hi: int)
    requires |ns| > 0 && forall x :: 0 <= x < |ns| ==> |ns[x]| == 3
    requires c < 3 && forall x :: 0 <= x < |ns| ==> lo <= ns[x][c] <= hi
    ensures |MeanPixel(ns)| == 3 && lo <= MeanPixel(ns)[c] <= hi
  {
    ChannelSumBounds(ns, c, lo, hi);
    QuotientBetween(ChannelSum(ns, c), |ns|, lo, hi);
  }

  /** The new value of pixel (i, j). */
  function RepairedPixel(image: seq<seq<seq<int>>>, h: nat, w: nat, threshold: int, i: nat, j: nat): (r: seq<int>)
    requires IsImage(image, h, w, 3) && InBounds(h, w, i, j)
    ensures |r| == 3
    ensures r != image[i][j] ==> forall c :: 0 <= c < 3 ==> image[i][j][c] < threshold
  {
    var px := image[i][j];
    if !Dark(px, threshold) then px
    else
      var bs := Brights(Neighbours(image, h, w, i, j), threshold);
      if |bs| > 0 then MeanPixel(bs) else [128, 128, 128]
  }

  /** A dark pixel whose neighbours are all dark becomes mid grey. */
  lemma {:induction false} DarkNeighbourhoodGrey(image: seq<seq<seq<int>>>, h: nat, w: nat, threshold: int, i: nat, j: nat)
    requires IsImage(image, h, w, 3) && InBounds(h, w, i, j)
    requires forall c :: 0 <= c < 3 ==> image[i][j][c] < threshold
    requires forall k :: IsNeighbour(h, w, i, j, k) ==> Dark(Around(image, h, w, i, j, k), threshold)
    ensures RepairedPixel(image, h, w, threshold, i, j) == [128, 128, 128]
  {
    var ns := Neighbours(image, h, w, i, j);
    NeighboursMembers(image, h, w, i, j);
  }

  /** A dark pixel with a bright neighbour becomes their mean: channel c of the new
      value lies in any range that holds channel c of every bright neighbour. */
  lemma {:induction false} DarkPixelMean(image: seq<seq<seq<int>>>, h: nat, w: nat, threshold: int, i: nat, j: nat, c: nat, lo: int, hi: int)
    requires IsImage(image, h, w, 3) && InBounds(h, w, i, j) && c < 3
    requires forall d :: 0 <= d < 3 ==> image[i][j][d] < threshold
    requires exists k :: IsNeighbour(h, w, i, j, k) && !Dark(Around(image, h, w, i, j, k), threshold)
    requires forall k :: IsNeighbour(h, w, i, j, k) && !Dark(Around(image, h, w, i, j, k), threshold) ==>
      lo <= Around(image, h, w, i, j, k)[c] <= hi
    ensures |RepairedPixel(image, h, w, threshold, i, j)| == 3
    ensures lo <= RepairedPixel(image, h, w, threshold, i, j)[c] <= hi
  {
    var ns := Neighbours(image, h, w, i, j);
    NeighboursMembers(image, h, w, i, j);
    var bs := Brights(ns, threshold);
    var k0 :| IsNeighbour(h, w, i, j, k0) && !Dark(Around(image, h, w, i, j, k0), threshold);
    assert Around(image, h, w, i, j, k0) in ns;
    assert Around(image, h, w, i, j, k0) in bs;
    forall x | 0 <= x < |bs|
      ensures lo <= bs[x][c] <= hi
    {
      var y :| 0 <= y < |ns| && ns[y] == bs[x];
      assert FromRing(image, h, w, i, j, |Ring|, ns[y]);
      var k :| 0 <= k < |Ring| && IsNeighbour(h, w, i, j, k) && ns[y] == Around(image, h, w, i, j, k);
    }
    MeanWithin(bs, c, lo, hi);
  }

  /** The repair turns a uint8 image into a uint8 image. */
  lemma {:induction false} RepairedByte(image: seq<seq<seq<int>>>, h: nat, w: nat, threshold: int, i: nat, j: nat)
    requires ByteImage(image, h, w, 3) && InBounds(h, w, i, j)
    ensures var px := RepairedPixel(image, h, w, threshold, i, j);
      |px| == 3 && forall c :: 0 <= c < 3 ==> 0 <= px[c] <= 255
  {
    var ns := Neighbours(image, h, w, i, j);
    NeighboursMembers(image, h, w, i, j);
    var bs := Brights(ns, threshold);
    if Dark(image[i][j], threshold) && |bs| > 0 {
      forall c | 0 <= c < 3
        ensures 0 <= MeanPixel(bs)[c] <= 255
      {
        forall x | 0 <= x < |bs|
          ensures 0 <= bs[x][c] <= 255
        {
          var y :| 0 <= y < |ns| && ns[y] == bs[x];
          assert FromRing(image, h, w, i, j, |Ring|, ns[y]);
      var k :| 0 <= k < |Ring| && IsNeighbour(h, w, i, j, k) && ns[y] == Around(image, h, w, i, j, k);
        }
        MeanWithin(bs, c, 0, 255);
      }
    }
  }

  // ---------------------------------------------------------------------------
  // The scan as the script runs it.

  /** The loop over the eight offsets that builds `neighbors`. */
  method CollectNeighbours(image: seq<seq<seq<int>>>, h: nat, w: nat, i: int, j: int) returns (ns: seq<seq<int>>)
    requires IsImage(image, h, w, 3)
    ensures ns == Neighbours(image, h, w, i, j)
  {
    ns := [];
    var k := 0;
    while k < |Ring|
      invariant k <= |Ring| && ns == NeighboursUpTo(image, h, w, i, j, k)
    {
      var (di, dj) := Ring[k];
      var ni, nj := i + di, j + dj;
      if 0 <= ni < h && 0 <= nj < w {
        ns := ns + [image[ni][nj]];
      }
      k := k + 1;
    }
  }

  /** The body of the scan for one pixel. */
  method RepairPixel(image: seq<seq<seq<int>>>, h: nat, w: nat, threshold: int, i: nat, j: nat) returns (px: seq<int>)
    requires IsImage(image, h, w, 3) && InBounds(h, w, i, j)
    ensures px == RepairedPixel(image, h, w, threshold, i, j)
  {
    px := image[i][j];
    if Dark(px, threshold) {
      var ns := CollectNeighbours(image, h, w, i, j);
      var bs := Brights(ns, threshold);
      if |bs| > 0 {
        px := MeanPixel(bs);
      } else {
        px := [128, 128, 128];
      }
    }
  }

  /** The inner loop over the columns of row i. */
  method RepairRow(image: seq<seq<seq<int>>>, h: nat, w: nat, threshold: int, i: nat, out: array2<seq<int>>)
    requires IsImage(image, h, w, 3) && i < h
    requires out.Length0 == h && out.Length1 == w
    modifies out
    ensures forall j :: 0 <= j < w ==> out[i, j] == RepairedPixel(image, h, w, threshold, i, j)
    ensures forall r, j :: 0 <= r < h && 0 <= j < w && r != i ==> out[r, j] == old(out[r, j])
  {
    var j := 0;
    while j < w
      invariant j <= w
      invariant forall k :: 0 <= k < j ==> out[i, k] == RepairedPixel(image, h, w, threshold, i, k)
      invariant forall r, k :: 0 <= r < h && 0 <= k < w && r != i ==> out[r, k] == old(out[r, k])
    {
      var px := RepairPixel(image, h, w, threshold, i, j);
      out[i, j] := px;
      j := j + 1;
    }
  }

  /** `replace_black_pixels_with_mean(image, threshold)`: a fresh copy of the image in
      which every pixel holds its repaired value. */
  method ReplaceBlackPixelsWithMean(image: seq<seq<seq<int>>>, h: nat, w: nat, threshold: int) returns (out: array2<seq<int>>)
    requires IsImage(image, h, w, 3)
    ensures fresh(out) && out.Length0 == h && out.Length1 == w
    ensures forall i, j :: 0 <= i < h && 0 <= j < w ==> out[i, j] == RepairedPixel(image, h, w, threshold, i, j)
  {
    out := new seq<int>[h, w]((i, j) requires 0 <= i < h && 0 <= j < w => image[i][j]);
    var i := 0;
    while i < h
      invariant i <= h
      invariant forall r, k :: 0 <= r < i && 0 <= k < w ==> out[r, k] == RepairedPixel(image, h, w, threshold, r, k)
    {
      RepairRow(image, h, w, threshold, i, out);
      i := i + 1;
    }
  }
}
