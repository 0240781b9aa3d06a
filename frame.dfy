/**
 The previous frame as the walkers see it: an RGBA8 image (what
 `DynamicImage::to_rgba8` yields), the `f32 as u32` cast that turns a rescaled
 coordinate into a pixel coordinate, the clamp and flip that turn that
 coordinate into an in-bounds column and row, and the white-pixel test.
 */
module Frame {

  /** One 8-bit channel. */
  newtype byte = x: int | 0 <= x < 256

  /** A pixel; `r`, `g`, `b`, `a` are channels 0, 1, 2, 3. */
  datatype Rgba = Rgba(r: byte, g: byte, b: byte, a: byte)

  /** An image stored row by row, row 0 at the top. */
  datatype Image = Image(width: nat, height: nat, rows: seq<seq<Rgba>>)
  {
    /** `rows` really is a `height` by `width` grid. */
    predicate Valid()
    {
      |rows| == height && forall y :: 0 <= y < |rows| ==> |rows[y]| == width
    }

    /** The pixel in column `x` of row `y`; outside the grid `get_pixel` panics. */
    function GetPixel(x: nat, y: nat): Rgba
      requires Valid() && x < width && y < height
    {
      rows[y][x]
    }
  }

  /** An image whose every pixel is `c`. */
  function Uniform(width: nat, height: nat, c: Rgba): (img: Image)
    ensures img.Valid() && img.width == width && img.height == height
    ensures forall x: nat, y: nat :: x < width && y < height ==> img.GetPixel(x, y) == c
  {
    Image(width, height, seq(height, _ => seq(width, _ => c)))
  }

  const U32_MAX: nat := 0xFFFF_FFFF

  /**
   Rust's `as u32` on a float: truncation toward zero, negative values
   saturate to 0, values past the top saturate to `U32_MAX`.
   */
  function CastU32(v: real): (n: nat)
    ensures n <= U32_MAX
    ensures v < 1.0 ==> n == 0
    ensures 0.0 <= v < (U32_MAX + 1) as real ==> n as real <= v < n as real + 1.0
    ensures v >= U32_MAX as real ==> n == U32_MAX
  {
    if v <= 0.0 then 0
    else if v.Floor >= U32_MAX then U32_MAX
    else v.Floor
  }

  /**
   The column actually read for pixel coordinate `px`: `px.min(width - 1)`.
   It is `px` itself when that is a column of the image, and the last column
   otherwise. With `width == 0` the subtraction underflows in the source.
   */
  function SampleColumn(px: nat, width: nat): (col: nat)
    requires width >= 1
    ensures col < width
    ensures col <= px
    ensures px < width ==> col == px
    ensures px >= width ==> col == width - 1
  {
    if px < width - 1 then px else width - 1
  }

  /**
   The row actually read for pixel coordinate `py` counted from the bottom:
   `height - 1 - py.min(height - 1)`. The flip turns the canvas' bottom-up
   coordinate into the image's top-down row; coordinates past the top all
   read row 0. With `height == 0` the subtraction underflows in the source.
   */
  function SampleRow(py: nat, height: nat): (row: nat)
    requires height >= 1
    ensures row < height
    ensures py < height ==> row + py == height - 1
    ensures py >= height ==> row == 0
  {
    height - 1 - (if py < height - 1 then py else height - 1)
  }

  /** The death test: channels 0, 1 and 2 all at 255. */
  predicate IsWhite(p: Rgba)
  {
    p.r == 255 && p.g == 255 && p.b == 255
  }

  /** The alpha channel plays no part in the death test. */
  lemma IsWhiteIgnoresAlpha(p: Rgba, alpha: byte)
    ensures IsWhite(p) == IsWhite(p.(a := alpha))
  {
  }
}
