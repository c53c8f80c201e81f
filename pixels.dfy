/**
 * The raster values the core reads: 8-bit RGBA pixels and immutable images,
 * standing in for the `image` crate's `Rgba<u8>` and `DynamicImage`.
 */
module Pixels {
  import opened Vectors

  /** Rust's `u8`. */
  type U8 = n: int | 0 <= n < 256

  datatype Rgba = Rgba(r: U8, g: U8, b: U8, a: U8) {

    /** Channel `i` in the order R, G, B, A (Rust's `p[i]`). */
    function Ch(i: nat): U8
      requires i < 4
    {
      if i == 0 then r else if i == 1 then g else if i == 2 then b else a
    }
  }

  /** `RgbaImage::new`: the zero pixel, fully transparent black. */
  const TRANSPARENT: Rgba := Rgba(0, 0, 0, 0)

  /** An image: `rows[y][x]` is the pixel at column `x` of row `y`. */
  datatype Image = Image(width: U32, height: U32, rows: seq<seq<Rgba>>) {

    predicate Valid() {
      |rows| == height && forall y :: 0 <= y < |rows| ==> |rows[y]| == width
    }

    /** `img.dimensions()`. */
    function Dimensions(): Vec2 {
      Vec2(width, height)
    }

    /** `img.get_pixel(x, y)`. */
    function At(x: nat, y: nat): Rgba
      requires Valid() && x < width && y < height
    {
      rows[y][x]
    }
  }

  /** Every pixel of the rectangle at `pos` of `size` in `img` is `c`. */
  ghost predicate Uniform(img: Image, pos: Vec2, size: Vec2, c: Rgba)
    requires img.Valid() && Within(pos, size, img.Dimensions())
  {
    forall x, y :: InRect(pos, size, x, y) ==> img.At(x, y) == c
  }
}
