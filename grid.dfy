/** Raster geometry shared by every component: rectangular grids, the row-major pixel
    index, numpy's `reshape(-1, c)` flattening and numpy's 'reflect' padding. */
module Grid {

  /** `g` is an `h` by `w` grid (a Python list of rows, or a 2-D numpy array). */
  ghost predicate IsGrid<T>(g: seq<seq<T>>, h: nat, w: nat)
  {
    |g| == h && forall i :: 0 <= i < h ==> |g[i]| == w
  }

  /** `img` is an `h` by `w` image whose every pixel holds `c` channels. */
  ghost predicate IsImage<T>(img: seq<seq<seq<T>>>, h: nat, w: nat, c: nat)
  {
    IsGrid(img, h, w) && forall i, j :: 0 <= i < h && 0 <= j < w ==> |img[i][j]| == c
  }

  /** An `h` by `w` uint8 image with `c` channels. */
  ghost predicate ByteImage(img: seq<seq<seq<int>>>, h: nat, w: nat, c: nat)
  {
    IsImage(img, h, w, c) && forall i, j, k :: 0 <= i < h && 0 <= j < w && 0 <= k < c ==> 0 <= img[i][j][k] <= 255
  }

  ghost predicate InBounds(h: nat, w: nat, i: int, j: int)
  {
    0 <= i < h && 0 <= j < w
  }

  /** Row-major flat index of pixel (i, j): `i * w + j`. */
  function PixelIndex(w: nat, i: nat, j: nat): nat
  {
    i * w + j
  }

  lemma {:induction false} MulLeftMonotone(a: nat, b: nat, w: nat)
    requires a <= b
    ensures a * w <= b * w
  {
    assert b * w - a * w == (b - a) * w;
  }

  /** The row-major index is a bijection from [0,h) x [0,w) onto [0, h*w) whose
      inverse is (p / w, p % w). */
  lemma {:induction false} PixelIndexBijection(h: nat, w: nat, i: nat, j: nat)
    requires i < h && j < w
    ensures PixelIndex(w, i, j) < h * w
    ensures PixelIndex(w, i, j) / w == i && PixelIndex(w, i, j) % w == j
  {
    MulLeftMonotone(i + 1, h, w);
    assert PixelIndex(w, i, j) < (i + 1) * w;
    DivModUnique(i * w + j, w, i, j);
  }

  /** The pixel after the last one of row i is the first one of row i + 1. */
  lemma {:induction false} NextRow(w: nat, i: nat)
    ensures PixelIndex(w, i, w) == PixelIndex(w, i + 1, 0)
  {
    assert (i + 1) * w == i * w + w;
  }

  /** The flat index of an in-bounds pixel is below h * w. */
  lemma {:induction false} PixelIndexBound(h: nat, w: nat, i: nat, j: nat)
    requires i < h && j < w
    ensures PixelIndex(w, i, j) < h * w
  {
    MulLeftMonotone(i + 1, h, w);
    assert PixelIndex(w, i, j) < (i + 1) * w;
  }

  /** Row i of an h-row image starts at or before the end of the flat image. */
  lemma {:induction false} RowStartBound(h: nat, w: nat, i: nat)
    requires i <= h
    ensures PixelIndex(w, i, 0) <= h * w
  {
    MulLeftMonotone(i, h, w);
  }

  /** Row i of an h-row image ends at or before the end of the flat image. */
  lemma {:induction false} RowEndBound(h: nat, w: nat, i: nat)
    requires i < h
    ensures 0 <= i * w && i * w + w <= h * w
  {
    MulLeftMonotone(0, i, w);
    MulLeftMonotone(i + 1, h, w);
    assert (i + 1) * w == i * w + w;
  }

  /** The squared length `di**2 + dj**2` of the offset o = (di, dj): the spatial term
      of every distance kernel. */
  function SpatialDiff(o: (int, int)): int
  {
    o.0 * o.0 + o.1 * o.1
  }

  /** The spatial difference is never negative and is zero exactly at offset (0, 0). */
  lemma {:induction false} SpatialDiffSign(di: int, dj: int)
    ensures 0 <= SpatialDiff((di, dj))
    ensures SpatialDiff((di, dj)) == 0 <==> di == 0 && dj == 0
  {
    SquareSign(di);
    SquareSign(dj);
  }

  lemma {:induction false} SquareSign(d: int)
    ensures 0 <= d * d && (d * d == 0 <==> d == 0)
  {
    if d > 0 {
      assert d * d >= d;
    } else if d < 0 {
      assert d * d == (-d) * (-d) >= -d;
    }
  }

  /** Distinct pixels have distinct flat indices. */
  lemma {:induction false} PixelIndexInjective(h: nat, w: nat, i: nat, j: nat, k: nat, l: nat)
    requires i < h && j < w && k < h && l < w
    ensures PixelIndex(w, i, j) == PixelIndex(w, k, l) <==> i == k && j == l
  {
    PixelIndexBijection(h, w, i, j);
    PixelIndexBijection(h, w, k, l);
  }

  lemma {:induction false} DivModUnique(p: int, w: nat, q: int, r: int)
    requires w > 0 && 0 <= r < w && p == q * w + r
    ensures p / w == q && p % w == r
  {
    var q', r' := p / w, p % w;
    assert (q' - q) * w == r - r';
    if q' - q >= 1 {
      MulAtLeast(q' - q, w);
    } else if q - q' >= 1 {
      MulAtLeast(q - q', w);
    }
  }

  lemma {:induction false} MulAtLeast(d: int, w: nat)
    requires d >= 1
    ensures d * w >= w
  {
    assert d * w == (d - 1) * w + w;
  }

  /** Every flat index below h*w is the index of exactly the pixel (p / w, p % w). */
  lemma {:induction false} PixelIndexOnto(h: nat, w: nat, p: nat)
    requires p < h * w
    ensures w > 0 && p / w < h && p % w < w && PixelIndex(w, p / w, p % w) == p
  {
    if p / w >= h {
      MulLeftMonotone(h, p / w, w);
    }
  }

  /** numpy's `reshape(-1, c)` / `flatten()`: the rows laid end to end. */
  function Flatten<T>(g: seq<seq<T>>): seq<T>
  {
    if g == [] then [] else Flatten(g[..|g| - 1]) + g[|g| - 1]
  }

  lemma {:induction false} FlattenLength<T>(g: seq<seq<T>>, h: nat, w: nat)
    requires IsGrid(g, h, w)
    ensures |Flatten(g)| == h * w
  {
    if h > 0 {
      FlattenLength(g[..h - 1], h - 1, w);
      assert h * w == (h - 1) * w + w;
    }
  }

  /** Pixel (i, j) of the grid sits at flat index i * w + j. */
  lemma {:induction false} FlattenAt<T>(g: seq<seq<T>>, h: nat, w: nat, i: nat, j: nat)
    requires IsGrid(g, h, w) && i < h && j < w
    ensures |Flatten(g)| == h * w && PixelIndex(w, i, j) < h * w
    ensures Flatten(g)[PixelIndex(w, i, j)] == g[i][j]
  {
    FlattenLength(g, h, w);
    PixelIndexBijection(h, w, i, j);
    var g' := g[..h - 1];
    FlattenLength(g', h - 1, w);
    assert Flatten(g) == Flatten(g') + g[h - 1];
    if i < h - 1 {
      FlattenAt(g', h - 1, w, i, j);
    } else {
      assert PixelIndex(w, i, j) == (h - 1) * w + j;
    }
  }

  /** A property of every cell of a grid holds of every element of its flattening. */
  lemma {:induction false} FlattenAll<T>(rows: seq<seq<T>>, P: T -> bool)
    requires forall a, b :: 0 <= a < |rows| && 0 <= b < |rows[a]| ==> P(rows[a][b])
    ensures forall t :: 0 <= t < |Flatten(rows)| ==> P(Flatten(rows)[t])
  {
    if rows != [] {
      var n := |rows| - 1;
      var f := Flatten(rows[..n]);
      FlattenAll(rows[..n], P);
      assert Flatten(rows) == f + rows[n];
      forall t | 0 <= t < |Flatten(rows)|
        ensures P(Flatten(rows)[t])
      {
        if t >= |f| {
          assert Flatten(rows)[t] == rows[n][t - |f|];
        }
      }
    }
  }

  /** Row i of a flat buffer of h * w elements. */
  function FlatRow<T>(flat: seq<T>, h: nat, w: nat, i: nat): (row: seq<T>)
    requires |flat| == h * w && i < h
    ensures |row| == w
  {
    RowEndBound(h, w, i);
    flat[i * w .. i * w + w]
  }

  /** numpy's `reshape(h, w, ...)` of a flat buffer back into rows. */
  function Unflatten<T>(flat: seq<T>, h: nat, w: nat): (g: seq<seq<T>>)
    requires |flat| == h * w
    ensures IsGrid(g, h, w)
  {
    seq(h, i requires 0 <= i < h => FlatRow(flat, h, w, i))
  }

  lemma {:induction false} UnflattenAt<T>(flat: seq<T>, h: nat, w: nat, i: nat, j: nat)
    requires |flat| == h * w && i < h && j < w
    ensures PixelIndex(w, i, j) < h * w && Unflatten(flat, h, w)[i][j] == flat[PixelIndex(w, i, j)]
  {
    PixelIndexBijection(h, w, i, j);
    var row := FlatRow(flat, h, w, i);
    assert Unflatten(flat, h, w)[i] == row;
    var b := i * w;
    MulLeftMonotone(i + 1, h, w);
    assert (i + 1) * w == b + w;
    assert row == flat[b .. b + w];
    assert row[j] == flat[b + j];
  }

  /** Reshaping a flattened grid gives the grid back. */
  lemma {:induction false} UnflattenFlatten<T>(g: seq<seq<T>>, h: nat, w: nat)
    requires IsGrid(g, h, w)
    ensures |Flatten(g)| == h * w && Unflatten(Flatten(g), h, w) == g
  {
    FlattenLength(g, h, w);
    var g' := Unflatten(Flatten(g), h, w);
    forall i | 0 <= i < h
      ensures g'[i] == g[i]
    {
      forall j | 0 <= j < w
        ensures g'[i][j] == g[i][j]
      {
        FlattenAt(g, h, w, i, j);
        UnflattenAt(Flatten(g), h, w, i, j);
      }
    }
  }

  /** Flattening a reshaped buffer gives the buffer back. */
  lemma {:induction false} FlattenUnflatten<T>(flat: seq<T>, h: nat, w: nat)
    requires |flat| == h * w
    ensures Flatten(Unflatten(flat, h, w)) == flat
  {
    var g := Unflatten(flat, h, w);
    FlattenLength(g, h, w);
    forall p | 0 <= p < h * w
      ensures Flatten(g)[p] == flat[p]
    {
      PixelIndexOnto(h, w, p);
      FlattenAt(g, h, w, p / w, p % w);
      UnflattenAt(flat, h, w, p / w, p % w);
    }
  }

  /** A flat buffer of n pixels, each holding nc channels (numpy's `reshape(-1, nc)`). */
  ghost predicate Pixels<T>(flat: seq<seq<T>>, n: nat, nc: nat)
  {
    |flat| == n && forall p :: 0 <= p < n ==> |flat[p]| == nc
  }

  /** Flattening an image gives one pixel per cell, each with the image's channels. */
  lemma {:induction false} FlattenImage<T>(img: seq<seq<seq<T>>>, h: nat, w: nat, nc: nat)
    requires IsImage(img, h, w, nc)
    ensures Pixels(Flatten(img), h * w, nc)
  {
    FlattenLength(img, h, w);
    forall p | 0 <= p < h * w
      ensures |Flatten(img)[p]| == nc
    {
      PixelIndexOnto(h, w, p);
      FlattenAt(img, h, w, p / w, p % w);
    }
  }

  /** Reshaping a flat buffer of pixels gives an image with the same channels. */
  lemma {:induction false} UnflattenImage<T>(flat: seq<seq<T>>, h: nat, w: nat, nc: nat)
    requires Pixels(flat, h * w, nc)
    ensures IsImage(Unflatten(flat, h, w), h, w, nc)
  {
    forall i, j | 0 <= i < h && 0 <= j < w
      ensures |Unflatten(flat, h, w)[i][j]| == nc
    {
      UnflattenAt(flat, h, w, i, j);
    }
  }

  /** A flat buffer of `n` uint8 pixels with `nc` channels each. */
  ghost predicate BytePixels(flat: seq<seq<int>>, n: nat, nc: nat)
  {
    Pixels(flat, n, nc) && forall p, c :: 0 <= p < n && 0 <= c < nc ==> 0 <= flat[p][c] <= 255
  }

  /** Flattening a uint8 image keeps its values bytes. */
  lemma {:induction false} FlattenBytes(img: seq<seq<seq<int>>>, h: nat, w: nat, nc: nat)
    requires ByteImage(img, h, w, nc)
    ensures BytePixels(Flatten(img), h * w, nc)
  {
    FlattenImage(img, h, w, nc);
    forall p | 0 <= p < h * w
      ensures forall c :: 0 <= c < nc ==> 0 <= Flatten(img)[p][c] <= 255
    {
      PixelIndexOnto(h, w, p);
      FlattenAt(img, h, w, p / w, p % w);
    }
  }

  /** Reshaping a buffer of bytes gives a uint8 image. */
  lemma {:induction false} UnflattenBytes(flat: seq<seq<int>>, h: nat, w: nat, nc: nat)
    requires BytePixels(flat, h * w, nc)
    ensures ByteImage(Unflatten(flat, h, w), h, w, nc)
  {
    UnflattenImage(flat, h, w, nc);
    forall i, j | 0 <= i < h && 0 <= j < w
      ensures forall c :: 0 <= c < nc ==> 0 <= Unflatten(flat, h, w)[i][j][c] <= 255
    {
      UnflattenAt(flat, h, w, i, j);
    }
  }

  /** `astype(np.float32)` or `astype(np.float64)` of a flat integer image, taken as exact. */
  function ToReals(flat: seq<seq<int>>): (r: seq<seq<real>>)
    ensures |r| == |flat| && forall p :: 0 <= p < |flat| ==> |r[p]| == |flat[p]|
  {
    seq(|flat|, p requires 0 <= p < |flat| => seq(|flat[p]|, c requires 0 <= c < |flat[p]| => flat[p][c] as real))
  }

  /** Channel c of an image, as a grid (numpy's `image[:, :, c]`). */
  function Channel<T>(img: seq<seq<seq<T>>>, h: nat, w: nat, nc: nat, c: nat): (g: seq<seq<T>>)
    requires IsImage(img, h, w, nc) && c < nc
    ensures IsGrid(g, h, w)
    ensures forall i, j :: 0 <= i < h && 0 <= j < w ==> g[i][j] == img[i][j][c]
  {
    seq(h, i requires 0 <= i < h => seq(w, j requires 0 <= j < w => img[i][j][c]))
  }

  /** numpy's 'reflect' padding: the sample read for (possibly out-of-range) index m on
      an axis of length n. The axis is mirrored about its end samples without repeating
      them; wider pads keep reflecting, so the pattern has period 2n - 2. An axis of
      length 1 is padded with its only sample. */
  function Reflect(m: int, n: nat): (r: nat)
    requires n > 0
    ensures r < n
  {
    if n == 1 then 0
    else
      var k := m % (2 * n - 2);
      if k < n then k else 2 * n - 2 - k
  }

  /** Indices inside the axis are read unchanged. */
  lemma {:induction false} ReflectInside(m: int, n: nat)
    requires 0 <= m < n
    ensures Reflect(m, n) == m
  {
    if n > 1 {
      DivModUnique(m, 2 * n - 2, 0, m);
    }
  }

  /** Within a pad narrower than the axis, row -m reads row m and row n-1+m reads
      row n-1-m. */
  lemma {:induction false} ReflectMirror(m: int, n: nat)
    requires n >= 2 && (-(n - 1) <= m < 0 || n <= m <= 2 * n - 2)
    ensures m < 0 ==> Reflect(m, n) == -m
    ensures m >= n ==> Reflect(m, n) == 2 * (n - 1) - m
  {
    if m < 0 {
      DivModUnique(m, 2 * n - 2, -1, m + 2 * n - 2);
    } else if m < 2 * n - 2 {
      DivModUnique(m, 2 * n - 2, 0, m);
    } else {
      DivModUnique(m, 2 * n - 2, 1, 0);
    }
  }
}
