/** The pure-Python noise injectors: salt-and-pepper, uniform and Gaussian noise on
    grey images (lists of rows of ints) and colour images (lists of rows of pixels).
    The random number generator is the stream `draws`: draws(k) is the value of the
    k-th call into it, and each injector also returns how many calls it made. */
module Noise {
  import opened Numeric
  import opened Grid

  /** `random.random()` returns values in [0, 1). */
  ghost predicate UnitDraws(draws: nat -> real)
  {
    forall k: nat :: 0.0 <= draws(k) < 1.0
  }

  // ---------------------------------------------------------------------------
  // Salt and pepper, grey.

  /** The new value of a grey pixel p under the draw d. */
  function SaltPepper(p: int, d: real, salt: real, pepper: real): int
  {
    if d < salt then 255 else if d < salt + pepper then 0 else p
  }

  /** Every output is white, black or the input value; with probabilities that are
      both zero a draw from [0, 1) keeps the pixel. */
  lemma {:induction false} SaltPepperOutcome(p: int, d: real, salt: real, pepper: real)
    ensures SaltPepper(p, d, salt, pepper) in {255, 0, p}
    ensures 0 <= p <= 255 ==> 0 <= SaltPepper(p, d, salt, pepper) <= 255
    ensures salt == 0.0 && pepper == 0.0 && 0.0 <= d ==> SaltPepper(p, d, salt, pepper) == p
  {
  }

  /** `add_salt_and_pepper_noise`: copies the grid, then draws once per pixel in
      row-major order and overwrites the pixel with 255 or 0 when the draw falls below
      salt_prob or salt_prob + pepper_prob. */
  method AddSaltAndPepperNoise(img: seq<seq<int>>, h: nat, w: nat, draws: nat -> real, salt: real, pepper: real)
    returns (noisy: seq<seq<int>>, consumed: nat)
    requires IsGrid(img, h, w) && 0 < h
    ensures IsGrid(noisy, h, w) && consumed == h * w
    ensures forall i, j :: 0 <= i < h && 0 <= j < w ==>
      noisy[i][j] == SaltPepper(img[i][j], draws(PixelIndex(w, i, j)), salt, pepper)
  {
    noisy := seq(h, i requires 0 <= i < h => seq(w, j requires 0 <= j < w => img[i][j]));
    consumed := 0;
    for i := 0 to h
      invariant IsGrid(noisy, h, w) && consumed == PixelIndex(w, i, 0)
      invariant forall a, b :: 0 <= a < h && 0 <= b < w ==>
        noisy[a][b] == if a < i then SaltPepper(img[a][b], draws(PixelIndex(w, a, b)), salt, pepper) else img[a][b]
    {
      for j := 0 to w
        invariant IsGrid(noisy, h, w) && consumed == PixelIndex(w, i, j)
        invariant forall a, b :: 0 <= a < h && 0 <= b < w ==>
          noisy[a][b] == if a < i || (a == i && b < j) then SaltPepper(img[a][b], draws(PixelIndex(w, a, b)), salt, pepper) else img[a][b]
      {
        var rand := draws(consumed);
        consumed := consumed + 1;
        if rand < salt {
          noisy := noisy[i := noisy[i][j := 255]];
        } else if rand < salt + pepper {
          noisy := noisy[i := noisy[i][j := 0]];
        }
      }
      NextRow(w, i);
    }
  }

  // ---------------------------------------------------------------------------
  // Additive noise: uniform and Gaussian, grey and colour.

  /** `max(0, min(255, int(p + noise)))`, with Python's truncation toward zero. */
  function AddClamp(p: int, noise: real): int
  {
    ClampByte(TruncToInt(p as real + noise))
  }

  /** The stored value is a byte; inside [0, 256) it is the floor of the noisy value;
      below 0 it is 0 and from 256 on it is 255; zero noise keeps a byte unchanged. */
  lemma {:induction false} AddClampValue(p: int, noise: real)
    ensures 0 <= AddClamp(p, noise) <= 255
    ensures 0.0 <= p as real + noise < 256.0 ==> AddClamp(p, noise) == (p as real + noise).Floor
    ensures p as real + noise < 0.0 ==> AddClamp(p, noise) == 0
    ensures 256.0 <= p as real + noise ==> AddClamp(p, noise) == 255
    ensures noise == 0.0 && 0 <= p <= 255 ==> AddClamp(p, noise) == p
  {
    var x := p as real + noise;
    if 0.0 <= x < 256.0 {
      assert TruncToInt(x) == x.Floor;
    }
  }

  /** Truncating toward zero and flooring store the same byte: they differ only on
      negative non-integers, which both clamp to 0. */
  lemma {:induction false} TruncationInvisible(p: int, noise: real)
    ensures AddClamp(p, noise) == ClampByte((p as real + noise).Floor)
  {
    var x := p as real + noise;
    if x < 0.0 {
      assert TruncToInt(x) <= 0;
      assert x.Floor < 0;
    }
  }

  /** `add_uniform_noise` and `add_gaussian_noise` (the two differ only in where the
      noise values come from): a fresh grid of the input's shape, filled in row-major
      order with the input pixel plus one noise value, truncated and clamped. Here
      draws(k) is the k-th noise value: `random.uniform(lower_bound, upper_bound)` or
      `random_gaussian(mean, std)`. */
  method AddNoiseGrey(img: seq<seq<int>>, h: nat, w: nat, draws: nat -> real) returns (noisy: seq<seq<int>>, consumed: nat)
    requires IsGrid(img, h, w) && 0 < h
    ensures IsGrid(noisy, h, w) && consumed == h * w
    ensures forall i, j :: 0 <= i < h && 0 <= j < w ==> noisy[i][j] == AddClamp(img[i][j], draws(PixelIndex(w, i, j)))
  {
    noisy := seq(h, i => seq(w, j => 0));
    consumed := 0;
    for i := 0 to h
      invariant IsGrid(noisy, h, w) && consumed == PixelIndex(w, i, 0)
      invariant forall a, b :: 0 <= a < h && 0 <= b < w ==>
        noisy[a][b] == if a < i then AddClamp(img[a][b], draws(PixelIndex(w, a, b))) else 0
    {
      for j := 0 to w
        invariant IsGrid(noisy, h, w) && consumed == PixelIndex(w, i, j)
        invariant forall a, b :: 0 <= a < h && 0 <= b < w ==>
          noisy[a][b] == if a < i || (a == i && b < j) then AddClamp(img[a][b], draws(PixelIndex(w, a, b))) else 0
      {
        var noise := draws(consumed);
        consumed := consumed + 1;
        var noisyValue := img[i][j] as real + noise;
        noisy := noisy[i := noisy[i][j := ClampByte(TruncToInt(noisyValue))]];
      }
      NextRow(w, i);
    }
  }

  /** The noisy copy of one pixel whose channel c takes the noise value draws(k + c). */
  function NoisyPixel(px: seq<int>, draws: nat -> real, k: nat): (q: seq<int>)
    ensures |q| == |px|
  {
    seq(|px|, c requires 0 <= c < |px| => AddClamp(px[c], draws(k + c)))
  }

  /** The index of the noise value that channel c of pixel (i, j) takes. */
  function ChannelDraw(w: nat, nc: nat, i: nat, j: nat, c: nat): nat
  {
    PixelIndex(nc, PixelIndex(w, i, j), c)
  }

  /** `add_uniform_noise_color` and `add_gaussian_noise_color`: a fresh image of the
      input's shape, filled in (i, j, c) order, one noise value per channel value. The
      channel count is read from pixel (0, 0). */
  method AddNoiseColour(img: seq<seq<seq<int>>>, h: nat, w: nat, nc: nat, draws: nat -> real)
    returns (noisy: seq<seq<seq<int>>>, consumed: nat)
    requires IsImage(img, h, w, nc) && 0 < h && 0 < w
    ensures IsImage(noisy, h, w, nc) && consumed == PixelIndex(nc, h * w, 0)
    ensures forall i, j, c :: 0 <= i < h && 0 <= j < w && 0 <= c < nc ==>
      noisy[i][j][c] == AddClamp(img[i][j][c], draws(ChannelDraw(w, nc, i, j, c)))
  {
    var zero := seq(nc, c => 0);
    noisy := seq(h, i => seq(w, j => zero));
    consumed := 0;
    for i := 0 to h
      invariant IsImage(noisy, h, w, nc) && consumed == PixelIndex(nc, PixelIndex(w, i, 0), 0)
      invariant forall a, b :: 0 <= a < h && 0 <= b < w ==>
        noisy[a][b] == if a < i then NoisyPixel(img[a][b], draws, ChannelDraw(w, nc, a, b, 0)) else zero
    {
      for j := 0 to w
        invariant IsImage(noisy, h, w, nc) && consumed == PixelIndex(nc, PixelIndex(w, i, j), 0)
        invariant forall a, b :: 0 <= a < h && 0 <= b < w ==>
          noisy[a][b] == if a < i || (a == i && b < j) then NoisyPixel(img[a][b], draws, ChannelDraw(w, nc, a, b, 0)) else zero
      {
        var px;
        px, consumed := NoiseChannels(img[i][j], noisy[i][j], draws, consumed);
        noisy := noisy[i := noisy[i][j := px]];
        NextRow(nc, PixelIndex(w, i, j));
      }
      NextRow(w, i);
    }
    assert PixelIndex(w, h, 0) == h * w;
    forall i, j, c | 0 <= i < h && 0 <= j < w && 0 <= c < nc
      ensures noisy[i][j][c] == AddClamp(img[i][j][c], draws(ChannelDraw(w, nc, i, j, c)))
    {
      assert ChannelDraw(w, nc, i, j, 0) + c == ChannelDraw(w, nc, i, j, c);
    }
  }

  /** The innermost loop: channel c of the pixel takes the noise value draws(start + c). */
  method NoiseChannels(px: seq<int>, out: seq<int>, draws: nat -> real, start: nat) returns (q: seq<int>, consumed: nat)
    requires |out| == |px|
    ensures q == NoisyPixel(px, draws, start) && consumed == start + |px|
  {
    q := out;
    consumed := start;
    for c := 0 to |px|
      invariant |q| == |px| && consumed == start + c
      invariant forall d :: 0 <= d < c ==> q[d] == AddClamp(px[d], draws(start + d))
    {
      var noise := draws(consumed);
      consumed := consumed + 1;
      q := q[c := ClampByte(TruncToInt(px[c] as real + noise))];
    }
  }

  /** Uniform and Gaussian noise on a colour image leave every channel value a byte,
      whatever the noise. */
  lemma {:induction false} NoiseColourBytes(img: seq<seq<seq<int>>>, noisy: seq<seq<seq<int>>>, h: nat, w: nat, nc: nat, draws: nat -> real)
    requires IsImage(img, h, w, nc) && IsImage(noisy, h, w, nc)
    requires forall i, j, c :: 0 <= i < h && 0 <= j < w && 0 <= c < nc ==>
      noisy[i][j][c] == AddClamp(img[i][j][c], draws(ChannelDraw(w, nc, i, j, c)))
    ensures ByteImage(noisy, h, w, nc)
  {
    forall i, j, c | 0 <= i < h && 0 <= j < w && 0 <= c < nc
      ensures 0 <= noisy[i][j][c] <= 255
    {
      AddClampValue(img[i][j][c], draws(ChannelDraw(w, nc, i, j, c)));
    }
  }

  // ---------------------------------------------------------------------------
  // Salt and pepper, colour: one or two draws per pixel.

  const White: seq<int> := [255, 255, 255]
  const Black: seq<int> := [0, 0, 0]

  /** A value computed from the stream, with the index of the next unused draw. */
  datatype Drawn<T> = Drawn(value: T, next: nat)

  /** One pixel: a first draw below salt_prob whitens it; otherwise a second, fresh
      draw below pepper_prob blackens it; otherwise it keeps its value. */
  function ColourStep(px: seq<int>, draws: nat -> real, k: nat, salt: real, pepper: real): Drawn<seq<int>>
  {
    if draws(k) < salt then Drawn(White, k + 1)
    else if draws(k + 1) < pepper then Drawn(Black, k + 2)
    else Drawn(px, k + 2)
  }

  /** The pixels of one row, left to right, starting at draw k. Each pixel takes one
      or two draws. */
  function RowRun(row: seq<seq<int>>, draws: nat -> real, k: nat, salt: real, pepper: real): (r: Drawn<seq<seq<int>>>)
    ensures |r.value| == |row| && k + |row| <= r.next <= k + 2 * |row|
  {
    if row == [] then Drawn([], k)
    else
      var prev := RowRun(row[..|row| - 1], draws, k, salt, pepper);
      var s := ColourStep(row[|row| - 1], draws, prev.next, salt, pepper);
      Drawn(prev.value + [s.value], s.next)
  }

  /** Number of pixels of a list of rows. */
  function PixelCount(rows: seq<seq<seq<int>>>): nat
  {
    if rows == [] then 0 else PixelCount(rows[..|rows| - 1]) + |rows[|rows| - 1]|
  }

  /** The rows top to bottom, starting at draw k: between one and two draws per
      pixel in all. */
  function GridRun(rows: seq<seq<seq<int>>>, draws: nat -> real, k: nat, salt: real, pepper: real): (r: Drawn<seq<seq<seq<int>>>>)
    ensures |r.value| == |rows| && forall a :: 0 <= a < |rows| ==> |r.value[a]| == |rows[a]|
    ensures k + PixelCount(rows) <= r.next <= k + 2 * PixelCount(rows)
  {
    if rows == [] then Drawn([], k)
    else
      var prev := GridRun(rows[..|rows| - 1], draws, k, salt, pepper);
      var row := RowRun(rows[|rows| - 1], draws, prev.next, salt, pepper);
      Drawn(prev.value + [row.value], row.next)
  }

  lemma {:induction false} PixelCountGrid(rows: seq<seq<seq<int>>>, h: nat, w: nat)
    requires IsGrid(rows, h, w)
    ensures PixelCount(rows) == h * w
  {
    if h > 0 {
      PixelCountGrid(rows[..h - 1], h - 1, w);
    }
  }

  /** Every pixel of a row run is white, black or the input pixel. */
  lemma {:induction false} RowRunOutcomes(row: seq<seq<int>>, draws: nat -> real, k: nat, salt: real, pepper: real)
    ensures forall b :: 0 <= b < |row| ==>
      RowRun(row, draws, k, salt, pepper).value[b] in {White, Black, row[b]}
  {
    if row != [] {
      var n := |row| - 1;
      RowRunOutcomes(row[..n], draws, k, salt, pepper);
    }
  }

  /** Every output pixel is white, black or the input pixel. */
  lemma {:induction false} GridRunOutcomes(rows: seq<seq<seq<int>>>, draws: nat -> real, k: nat, salt: real, pepper: real)
    ensures forall a, b :: 0 <= a < |rows| && 0 <= b < |rows[a]| ==>
      GridRun(rows, draws, k, salt, pepper).value[a][b] in {White, Black, rows[a][b]}
  {
    if rows != [] {
      var n := |rows| - 1;
      var prev := GridRun(rows[..n], draws, k, salt, pepper);
      GridRunOutcomes(rows[..n], draws, k, salt, pepper);
      RowRunOutcomes(rows[n], draws, prev.next, salt, pepper);
    }
  }

  /** With both probabilities zero and draws from [0, 1), a row comes back unchanged. */
  lemma {:induction false} RowRunZero(row: seq<seq<int>>, draws: nat -> real, k: nat)
    requires UnitDraws(draws)
    ensures RowRun(row, draws, k, 0.0, 0.0).value == row
  {
    if row != [] {
      var n := |row| - 1;
      RowRunZero(row[..n], draws, k);
      var prev := RowRun(row[..n], draws, k, 0.0, 0.0);
      assert 0.0 <= draws(prev.next) && 0.0 <= draws(prev.next + 1);
      assert row == row[..n] + [row[n]];
    }
  }

  /** With both probabilities zero and draws from [0, 1), the image comes back
      unchanged. */
  lemma {:induction false} GridRunZero(rows: seq<seq<seq<int>>>, draws: nat -> real, k: nat)
    requires UnitDraws(draws)
    ensures GridRun(rows, draws, k, 0.0, 0.0).value == rows
  {
    if rows != [] {
      var n := |rows| - 1;
      GridRunZero(rows[..n], draws, k);
      var prev := GridRun(rows[..n], draws, k, 0.0, 0.0);
      RowRunZero(rows[n], draws, prev.next);
      assert rows == rows[..n] + [rows[n]];
    }
  }

  /** `add_salt_and_pepper_noise_color`: a fresh image of the input's height and width,
      filled pixel by pixel in row-major order by `ColourStep`. Between h w and 2 h w
      draws are made. */
  method AddSaltAndPepperNoiseColour(img: seq<seq<seq<int>>>, h: nat, w: nat, draws: nat -> real, salt: real, pepper: real)
    returns (noisy: seq<seq<seq<int>>>, consumed: nat)
    requires IsGrid(img, h, w) && 0 < h
    ensures Drawn(noisy, consumed) == GridRun(img, draws, 0, salt, pepper)
    ensures IsGrid(noisy, h, w) && h * w <= consumed <= 2 * (h * w)
  {
    noisy := seq(h, i => seq(w, j => [0, 0, 0]));
    consumed := 0;
    for i := 0 to h
      invariant |noisy| == h && forall a :: i <= a < h ==> |noisy[a]| == w
      invariant noisy[..i] == GridRun(img[..i], draws, 0, salt, pepper).value
      invariant consumed == GridRun(img[..i], draws, 0, salt, pepper).next
    {
      var row;
      row, consumed := SaltPepperRow(img[i], noisy[i], draws, consumed, salt, pepper);
      assert img[..i + 1][..i] == img[..i];
      noisy := noisy[i := row];
      assert noisy[..i + 1] == noisy[..i] + [row];
    }
    assert img[..h] == img && noisy[..h] == noisy;
    PixelCountGrid(img, h, w);
  }

  /** The inner loop over one row, starting at draw `start`: each pixel of the zeroed
      output row `zeros` is replaced in turn. */
  method SaltPepperRow(row: seq<seq<int>>, zeros: seq<seq<int>>, draws: nat -> real, start: nat, salt: real, pepper: real)
    returns (out: seq<seq<int>>, consumed: nat)
    requires |zeros| == |row|
    ensures Drawn(out, consumed) == RowRun(row, draws, start, salt, pepper)
  {
    out := zeros;
    consumed := start;
    for j := 0 to |row|
      invariant |out| == |row|
      invariant Drawn(out[..j], consumed) == RowRun(row[..j], draws, start, salt, pepper)
    {
      var px;
      if draws(consumed) < salt {
        px := White;
        consumed := consumed + 1;
      } else {
        consumed := consumed + 1;
        if draws(consumed) < pepper {
          px := Black;
        } else {
          px := row[j];
        }
        consumed := consumed + 1;
      }
      assert row[..j + 1][..j] == row[..j];
      out := out[j := px];
      assert out[..j + 1] == out[..j] + [px];
    }
    assert row[..|row|] == row && out[..|row|] == out;
  }
}
