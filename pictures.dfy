/** The conversions between PIL images and the nested lists the noise injectors work
    on. A PIL image is addressed by (x, y), column first; the lists are indexed
    [y][x], row first. */
module Pictures {
  import opened Grid

  /** A PIL image of `width` by `height` pixels; pixels[x, y] is `getpixel((x, y))`. */
  class Picture<T> {
    const width: nat
    const height: nat
    const pixels: array2<T>

    ghost predicate Valid()
      reads this
    {
      pixels.Length0 == width && pixels.Length1 == height
    }

    /** `Image.new(mode, (width, height))`: every pixel holds the background colour. */
    constructor (width: nat, height: nat, background: T)
      ensures Valid() && this.width == width && this.height == height && fresh(pixels)
      ensures forall x, y :: 0 <= x < width && 0 <= y < height ==> pixels[x, y] == background
    {
      this.width := width;
      this.height := height;
      pixels := new T[width, height]((x, y) => background);
    }

    /** `getpixel((x, y))`. */
    function GetPixel(x: nat, y: nat): T
      reads this, pixels
      requires Valid() && x < width && y < height
    {
      pixels[x, y]
    }

    /** `putpixel((x, y), v)`: pixel (x, y) becomes v and no other pixel changes. */
    method PutPixel(x: nat, y: nat, v: T)
      requires Valid() && x < width && y < height
      modifies pixels
      ensures forall a, b :: 0 <= a < width && 0 <= b < height ==>
        pixels[a, b] == if a == x && b == y then v else old(pixels[a, b])
    {
      pixels[x, y] := v;
    }
  }

  // ---------------------------------------------------------------------------
  // Grey ('L') images.

  /** `image_to_array`: row y of the list holds the pixels (0, y) .. (width - 1, y). */
  function ImageToArray(img: Picture<int>): (a: seq<seq<int>>)
    reads img, img.pixels
    requires img.Valid()
    ensures IsGrid(a, img.height, img.width)
    ensures forall y, x :: 0 <= y < img.height && 0 <= x < img.width ==> a[y][x] == img.GetPixel(x, y)
  {
    seq(img.height, y reads img, img.pixels requires 0 <= y < img.height =>
      seq(img.width, x reads img, img.pixels requires 0 <= x < img.width => img.GetPixel(x, y)))
  }

  /** `array_to_image`: a new image as wide as the first row and as tall as the list,
      whose pixel (x, y) is a[y][x]. Reading it back gives the list again. */
  method ArrayToImage(a: seq<seq<int>>, h: nat, w: nat) returns (img: Picture<int>)
    requires IsGrid(a, h, w) && 0 < h
    ensures fresh(img) && fresh(img.pixels) && img.Valid() && img.width == w && img.height == h
    ensures forall x, y :: 0 <= x < w && 0 <= y < h ==> img.GetPixel(x, y) == a[y][x]
    ensures ImageToArray(img) == a
  {
    img := new Picture(w, h, 0);
    for y := 0 to h
      invariant img.Valid() && img.width == w && img.height == h && fresh(img.pixels)
      invariant forall x', y' :: 0 <= x' < w && 0 <= y' < h ==>
        img.pixels[x', y'] == if y' < y then a[y'][x'] else 0
    {
      for x := 0 to w
        invariant img.Valid() && img.width == w && img.height == h && fresh(img.pixels)
        invariant forall x', y' :: 0 <= x' < w && 0 <= y' < h ==>
          img.pixels[x', y'] == if y' < y || (y' == y && x' < x) then a[y'][x'] else 0
      {
        img.PutPixel(x, y, a[y][x]);
      }
    }
    var back := ImageToArray(img);
    assert forall y :: 0 <= y < h ==> back[y] == a[y];
  }

  // ---------------------------------------------------------------------------
  // Colour ('RGB') images: each pixel is a triple.

  /** Every pixel of the image is an RGB triple. */
  ghost predicate Rgb(img: Picture<seq<int>>)
    reads img, img.pixels
    requires img.Valid()
  {
    forall x, y :: 0 <= x < img.width && 0 <= y < img.height ==> |img.pixels[x, y]| == 3
  }

  /** Every pixel has at least the three channels the conversion reads (RGB, RGBA, ...). */
  ghost predicate HasRgb(img: Picture<seq<int>>)
    reads img, img.pixels
    requires img.Valid()
  {
    forall x, y :: 0 <= x < img.width && 0 <= y < img.height ==> 3 <= |img.pixels[x, y]|
  }

  /** `image_to_array_color`: row y holds the first three channels of pixels
      (0, y) .. (width - 1, y); any further channel, such as alpha, is dropped. */
  function ImageToArrayColour(img: Picture<seq<int>>): (a: seq<seq<seq<int>>>)
    reads img, img.pixels
    requires img.Valid() && HasRgb(img)
    ensures IsImage(a, img.height, img.width, 3)
    ensures forall y, x :: 0 <= y < img.height && 0 <= x < img.width ==> a[y][x] == img.GetPixel(x, y)[..3]
    ensures Rgb(img) ==> forall y, x :: 0 <= y < img.height && 0 <= x < img.width ==> a[y][x] == img.GetPixel(x, y)
  {
    seq(img.height, y reads img, img.pixels requires 0 <= y < img.height && HasRgb(img) =>
      seq(img.width, x reads img, img.pixels requires 0 <= x < img.width && HasRgb(img) =>
        seq(3, c reads img, img.pixels requires 0 <= c < 3 && HasRgb(img) => img.GetPixel(x, y)[c])))
  }

  /** `array_to_image_color`: a new RGB image whose pixel (x, y) is the first three
      channels of a[y][x]. Reading back a list of triples gives the list again. */
  method ArrayToImageColour(a: seq<seq<seq<int>>>, h: nat, w: nat) returns (img: Picture<seq<int>>)
    requires IsGrid(a, h, w) && 0 < h
    requires forall y, x :: 0 <= y < h && 0 <= x < w ==> 3 <= |a[y][x]|
    ensures fresh(img) && fresh(img.pixels) && img.Valid() && img.width == w && img.height == h && Rgb(img) && HasRgb(img)
    ensures forall x, y :: 0 <= x < w && 0 <= y < h ==> img.GetPixel(x, y) == a[y][x][..3]
    ensures IsImage(a, h, w, 3) ==> ImageToArrayColour(img) == a
  {
    img := new Picture(w, h, [0, 0, 0]);
    for y := 0 to h
      invariant img.Valid() && img.width == w && img.height == h && fresh(img.pixels)
      invariant forall x', y' :: 0 <= x' < w && 0 <= y' < h ==>
        img.pixels[x', y'] == if y' < y then a[y'][x'][..3] else [0, 0, 0]
    {
      for x := 0 to w
        invariant img.Valid() && img.width == w && img.height == h && fresh(img.pixels)
        invariant forall x', y' :: 0 <= x' < w && 0 <= y' < h ==>
          img.pixels[x', y'] == if y' < y || (y' == y && x' < x) then a[y'][x'][..3] else [0, 0, 0]
      {
        var pixel := seq(3, c requires 0 <= c < 3 => a[y][x][c]);
        assert pixel == a[y][x][..3];
        img.PutPixel(x, y, pixel);
      }
    }
    if IsImage(a, h, w, 3) {
      var back := ImageToArrayColour(img);
      forall y | 0 <= y < h
        ensures back[y] == a[y]
      {
        assert forall x :: 0 <= x < w ==> a[y][x][..3] == a[y][x];
      }
    }
  }

  /** Converting an image with at least three channels to a list and back (the copy
      `array_to_image_color` builds) keeps the first three channels of every pixel and
      drops the rest, so an RGB image comes back unchanged. */
  lemma {:induction false} ImageRoundTripColour(img: Picture<seq<int>>, copy: Picture<seq<int>>)
    requires img.Valid() && HasRgb(img) && copy.Valid() && copy.width == img.width && copy.height == img.height
    requires forall x, y :: 0 <= x < copy.width && 0 <= y < copy.height ==>
      copy.GetPixel(x, y) == ImageToArrayColour(img)[y][x][..3]
    ensures forall x, y :: 0 <= x < img.width && 0 <= y < img.height ==> copy.GetPixel(x, y) == img.GetPixel(x, y)[..3]
    ensures Rgb(img) ==> forall x, y :: 0 <= x < img.width && 0 <= y < img.height ==> copy.GetPixel(x, y) == img.GetPixel(x, y)
  {
    var a := ImageToArrayColour(img);
    forall x, y | 0 <= x < img.width && 0 <= y < img.height
      ensures copy.GetPixel(x, y) == img.GetPixel(x, y)[..3]
    {
      assert a[y][x] == img.GetPixel(x, y)[..3];
      assert a[y][x][..3] == a[y][x];
    }
    if Rgb(img) {
      forall x, y | 0 <= x < img.width && 0 <= y < img.height
        ensures copy.GetPixel(x, y) == img.GetPixel(x, y)
      {
        assert img.GetPixel(x, y)[..3] == img.GetPixel(x, y);
      }
    }
  }
}
